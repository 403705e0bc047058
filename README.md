# UNO engine: a Dafny model

This project models the engine of a two-player UNO game: one human against one automated player. The model covers:

- the legality rule for playing a card;
- building the 108-card deck and shuffling it with Fisher-Yates;
- the game-state transitions of the screen component:
  - dealing (`initGame`);
  - drawing with refill from the discard pile (`drawCard`);
  - moving the turn (`nextTurn`);
  - playing a card with its special effects and forced draws (`handlePlayCard` followed by `nextTurn(isAction)`);
  - the human's card click with the colour picker;
  - the automated player's turn;
- the adapter that re-validates the automated player's move and falls back to a local policy.

Modules and files:

| file | module | models |
|---|---|---|
| `Types.dfy` | `Types` | cards, players, statuses (`types.ts`) |
| `GameLogic.dfy` | `GameLogic` | `isValidMove`, `canPlayAny` (`utils/gameLogic.ts`) |
| `Counting.dfy` | `Counting` | counting helpers and `Bag`, a recursive multiset of a sequence |
| `Deck.dfy` | `Deck` | `createCard`, `generateInitialDeck`, `shuffle` (`constants.ts`) |
| `AIService.dfy` | `AIService` | validation and fallback of `getAIMove` (`services/geminiService.ts`) |
| `Game.dfy` | `Game` | the game record, its transitions and the component `App` (`App.tsx`) |

How the source's effects are represented:

- **The game record.** The component keeps one record, `game`, and every update replaces it whole. The model follows this shape:
  - The `GameState` datatype is that record.
  - Each transition is a function from the old record to the new one: `Deal`, `AfterDraw`, `AfterNextTurn`, `AfterPlay`, `AfterClick` and `AfterAITurn`.
  - A class `App` holds `game` as a field. Its methods are imperative: the shuffle on an array, the refill and pop, the forced-draw loop and the seed-card loop. Each method's postcondition is that it produces exactly the transition function's result.
  - A ghost field `dealtFrom` keeps the deck the current game was dealt from.
  - `App.Valid()` is the invariant `Consistent`. It requires that the deck, the discard pile and the hands together hold exactly the 108 cards dealt, as a multiset. Each transition is proved to keep it.
- **Randomness.** `Math.random` becomes supplied streams of naturals.
  - Step `i` of the shuffle swaps with `rand[i] % (i + 1)`, which is always in `[0, i]`.
  - A draw that may refill the pile gets its own stream, and so does each forced draw `i` (`rands[i]`).
- **Card ids.** Ids are naturals: `firstId` plus the position in the unshuffled deck. They are distinct, as the random strings are meant to be.
- **The oracle.** The remote model call is an input `OracleReply`: either a parsed answer or a failure.
- **JavaScript arithmetic.** The `%` in `nextTurn` is JavaScript's truncating remainder (`JsRem`). The model proves that the normalisation that follows it gives the mathematical residue.

Points where the code behaves in a way that is easy to misread:

- **The seed card.** `shuffle` returns a shuffled copy, so its result at `App.tsx:39` is discarded. The loop at `App.tsx:37-41` therefore only rotates wild cards from the back of the deck to the front (`RotateRight`). The loop has no guard of its own: on a rest of the deck made only of wild cards it would never end. The model requires `CanSeed` (a non-wild card remains), and `StandardDeckCanSeed` proves that a standard deck always meets it, since it has only 8 wild cards.
- **REVERSE with more than two players.** The code flips the direction at `App.tsx:127` and also lists REVERSE among the action cards at `App.tsx:179`. So the turn moves two seats in the new direction (`ReverseWithMorePlayers`), which differs from standard UNO rules. With two players, REVERSE acts as a skip, as the comment at `App.tsx:125` says. Games always have two players, so the first case is never reached.
- **A winning play.** After a winning play `handlePlayCard` still calls `nextTurn` at `App.tsx:180`, so the turn index moves even though the game is finished (`PlayWinsIffLastCard`).
- **The winner.** The winner is the player object after its card left the hand: the hand is spliced in place at `App.tsx:115`, so the winner's hand is empty.
- **`shouldSkip`.** The variable is assigned in `handlePlayCard` but never read. The skip comes from `isAction` alone.

## Model

| member | source | states |
|---|---|---|
| GameLogic.IsValidMove | utils/gameLogic.ts:4-15 | A card is playable iff it is wild, or has the active colour, or matches the top card's value; wild cards are always playable |
| GameLogic.CanPlayAny | utils/gameLogic.ts:17-19 | True iff some card of the hand is playable; false for an empty hand |
| GameLogic.TopColorAloneIsNotEnough | utils/gameLogic.ts:9-12 | Matching only the top card's colour, when another colour is active and the values differ, is not enough |
| Deck.PushCard | constants.ts:20-24 | `createCard` pushed onto the deck: a card with the next fresh id; exactly that face's count goes up by one |
| Deck.PushRound | constants.ts:41-42 | One round of a colour adds one each of ONE-NINE, SKIP, REVERSE and DRAW_TWO in that colour, and nothing else |
| Deck.PushColor | constants.ts:36-44 | A colour adds one ZERO and two of every other coloured value: its standard counts, 25 cards, no wild |
| Deck.BuildDeck | constants.ts:26-50 | 108 cards with the standard count of every face (one 0, two of 1-9 and of each action per colour, four WILD and four WILD_DRAW_FOUR) and 8 wild-coloured cards; ids are fresh |
| Deck.CountsPerm | constants.ts:52 | Face counts and the wild count survive any permutation |
| Deck.Pick | constants.ts:58 | The swap partner of step `i` lies in `[0, i]` |
| Deck.Swap | constants.ts:59 | The destructuring swap exchanges the elements at `i` and `j` and leaves every other position alone |
| Deck.SwapPreserves | constants.ts:59 | A swap keeps the multiset and keeps distinct elements distinct |
| Deck.ShuffleSteps | constants.ts:57-60 | The remaining loop steps keep the length of the sequence |
| Deck.ShuffleStepsPermutes | constants.ts:57-60 | The remaining loop steps from index `i` down to 1 keep the multiset and distinctness |
| Deck.Shuffled | constants.ts:55-62 | Fisher-Yates from the last index down keeps the length, and leaves a sequence of at most one element as it is |
| Deck.ShufflePermutes | constants.ts:55-62 | A shuffle keeps the length and the multiset, and maps distinct elements to distinct elements |
| Deck.Shuffle | constants.ts:55-62 | The in-place swap loop on a copied array yields exactly the Fisher-Yates result of the stream; the argument is untouched |
| Deck.GenerateInitialDeck | constants.ts:26-53 | The result is a standard 108-card deck with no duplicate cards and ids in `[firstId, firstId + 108)` |
| AIService.IsSafeMove | services/geminiService.ts:65-70 | The condition the validation enforces: a draw is always safe, and a safe play implies the hand holds a playable card |
| AIService.ValidateReply | services/geminiService.ts:62-74 | An index with no card, or naming an illegal card, becomes a draw; a safe answer passes unchanged; the result is always safe |
| AIService.FindPlayableIndex | services/geminiService.ts:79 | `findIndex`: the first playable position, or -1 when none is playable |
| AIService.FallbackMove | services/geminiService.ts:78-88 | The first playable card, with RED for a wild card and no colour otherwise; a draw (`DrawMove`, no index and no colour) iff no card is playable |
| AIService.GetAIMove | services/geminiService.ts:62-88 | The validated answer, or the fallback on failure; on every path the chosen index names a playable card of the hand |
| AIService.OutOfRangeIndexMeansDraw | services/geminiService.ts:64-65 | An index beyond the hand is a draw, whatever colour accompanies it |
| Game.JsRem | App.tsx:96 | JavaScript's `%`: the remainder has the dividend's sign, lies strictly between `-n` and `n`, and is the dividend itself when that is already smaller than `n` in size |
| Game.NextIndex | App.tsx:93-105 | The next turn is `(cur + direction * (skip ? 2 : 1)) mod n`, normalised into `[0, n)`; with two players a skip returns to the same player |
| Game.JsRemResidue | App.tsx:96-97 | The truncating remainder, lifted by `n` when negative, equals the mathematical residue |
| Game.CanDraw | App.tsx:64-65 | With a top card on the discard pile, a card can be drawn iff the piles hold more than that top card |
| Game.Refill | App.tsx:64-69 | The refill keeps the top card as the only discard and makes the shuffled rest of the discard pile the draw pile |
| Game.RefillConserves | App.tsx:64-69 | A refill only moves cards from the discard pile to the draw pile |
| Game.DrawFrom | App.tsx:64-71 | One draw takes the last card of the draw pile (after a refill when it is empty); the piles lose one card; the top of the discard pile stays |
| Game.DrawFromConserves | App.tsx:64-71 | A draw takes exactly the drawn card out of the piles |
| Game.DrawMany | App.tsx:159-165 | `k` forced draws take `k` cards and keep the top of the discard pile |
| Game.DrawManyConserves | App.tsx:159-165 | The piles lose exactly the cards drawn |
| Game.HandsUpdate | App.tsx:72-73 | Replacing one hand changes the cards held by exactly the difference between the two hands |
| Game.RemoveAt | App.tsx:115 | `splice(i, 1)` keeps the elements before `i` and shifts the ones after it down by one |
| Game.RemoveAtConserves | App.tsx:115 | The splice takes exactly the card at `i` out |
| Game.HandsGrow | App.tsx:73 | Pushing cards onto one hand adds exactly those cards to the cards held |
| Game.HandsShrink | App.tsx:115 | Splicing a card out of a hand removes exactly that card from the cards held |
| Game.DrawConserves | App.tsx:57-82 | Drawing into a hand keeps the multiset of all cards in play |
| Game.WinConserves | App.tsx:114-150 | A winning play keeps the multiset of all cards in play |
| Game.PlayConserves | App.tsx:114-166 | A play with its forced draws keeps the multiset of all cards in play |
| Game.TrailingWild | App.tsx:36-43 | The number of wild cards the seed loop passes over is at most the length of the rest of the deck |
| Game.TrailingWildAt | App.tsx:36-43 | The cards the seed loop passes over are wild, and the one it stops at is not |
| Game.TrailingWildBound | App.tsx:36-43 | The loop passes over no more cards than there are wild cards |
| Game.RotateRight | App.tsx:38-40 | Moving the passed-over cards to the front keeps the length of the deck |
| Game.RotateConserves | App.tsx:36-43 | The rotation done by the loop keeps the multiset |
| Game.RotateStep | App.tsx:39-41 | `unshift` then `pop` rotates the deck one step further |
| Game.FlipSeed | App.tsx:36-43 | The seed loop stops at the last non-wild card, after moving the wild cards behind it, in order, to the front |
| Game.TakeCard | App.tsx:60-71 | The imperative draw (copy, refill by `shuffle`, pop) is exactly `DrawFrom` |
| Game.ForcedDraws | App.tsx:157-165 | The forced-draw loop pushes exactly the cards of `DrawMany` and leaves its piles |
| Game.IsAction | App.tsx:179 | The action cards (`isAction`) are exactly the values that are neither numbers nor the plain WILD |
| Game.DrawCount | App.tsx:130-137 | A play forces at most 4 draws; some iff the card is DRAW TWO or WILD DRAW FOUR, and then it is an action card |
| Game.NewActiveColor | App.tsx:118 | A coloured card sets its own colour; WILD is never the colour in force unless it was the chosen colour |
| Game.NewDirection | App.tsx:124-128 | The direction is kept or flipped, and flipped exactly for REVERSE with other than two players |
| Game.Consistent | App.tsx:28-181 | The invariant of a started game implies the piles and hands hold as many cards as were dealt |
| Game.StandardDeckCanSeed | App.tsx:29-43 | After dealing two hands from a standard deck, a non-wild card remains, so the seed loop ends |
| Game.Deal | App.tsx:28-55 | The dealt game has a 1-card discard pile and a draw pile of the rest minus the hands |
| Game.DealSeed | App.tsx:29-54 | The human gets the first seven cards and the automated player the next seven. The seed card is not wild, sets the active colour, and is the last non-wild card; every card after it is wild. The draw pile is those wild cards followed by the cards before the seed. The human is to move, the direction is 1 and the game is in progress, with no winner and no thinking |
| Game.DealConsistent | App.tsx:28-55 | A freshly dealt game satisfies the invariant and holds exactly the deck it was dealt from |
| Game.AfterDraw | App.tsx:57-82 | Outside a game, or with nothing to draw, a draw changes nothing |
| Game.DrawTakesOne | App.tsx:57-82 | A draw appends one card to the player's hand and changes nothing else about that player. With a card in the draw pile, it is that pile's last card, the pile loses exactly it and the discard pile is kept. After a refill the discard pile is its old top card alone and the draw pile plus the drawn card is the shuffled rest. Other hands, turn, direction, colour, status, winner and thinking flag are kept |
| Game.DrawKeeps | App.tsx:57-82 | A draw keeps the invariant |
| Game.AfterNextTurn | App.tsx:93-105 | `nextTurn` moves the turn to `(cur + direction * (skip ? 2 : 1)) mod n`, a seat in range, clears the thinking flag and changes nothing else |
| Game.TwoPlayerTurns | App.tsx:93-105 | With two players a plain turn alternates and a skip repeats the player |
| Game.NextTurnKeeps | App.tsx:93-105 | Moving the turn keeps the invariant |
| Game.DrawTarget | App.tsx:155-156 | Forced draws go to the seat after `currentPlayerIndex` in the direction before the play |
| Game.HandlePlay | App.tsx:113-177 | The state update of a valid play keeps the number of players, leaves the turn and the thinking flag to the `nextTurn` that follows, and either keeps the status or finishes the game |
| Game.AfterPlay | App.tsx:107-181 | An invalid card changes nothing. After a valid one, the number of players is kept and the thinking flag is cleared. The direction is the old one after a winning play and `NewDirection` otherwise. The turn is `NextIndex` from the old seat in that direction, two seats for an action card |
| Game.PlayTopCard | App.tsx:114-118 | A valid card ends on top of the discard pile; the active colour is the card's colour, or for a wild card the chosen one (RED when none) |
| Game.PlayWinsIffLastCard | App.tsx:139-150 | A valid play finishes the game iff it was the last card. The winner is that player with an empty hand; the players are the old ones with that hand emptied; no card is drawn and the turn still moves |
| Game.NextSeatIsOther | App.tsx:155-156 | With two or more seats, the forced-draw target is not the acting player |
| Game.PlayForcedDraws | App.tsx:114-166 | The card leaves the actor's hand; the next player in the old direction receives exactly the 2 or 4 cards drawn, and the piles are exactly those the draws leave; the other hands are untouched |
| Game.TwoPlayerPlainCardPasses | App.tsx:179-180 | With two players a card that is not an action card passes the turn to the other player and keeps the direction |
| Game.TwoPlayerActionRepeatsTurn | App.tsx:124-137 | With two players every action card, REVERSE included, gives the same player the next turn and keeps the direction |
| Game.ReverseWithMorePlayers | App.tsx:124-128 | With more than two players REVERSE flips the direction and the turn moves two seats the other way |
| Game.HandlePlayKeeps | App.tsx:107-177 | The state update of a valid play keeps the invariant |
| Game.PlayKeeps | App.tsx:107-181 | `handlePlayCard` with its `nextTurn(isAction)` keeps the invariant |
| Game.AfterClick | App.tsx:215-236 | The click's outcome: not the human's turn exactly when no game is in progress or the turn is elsewhere; an invalid move exactly when, on the human's turn, the card is not playable; a cancelled pick only for a wild card with no colour picked |
| Game.ClickPlaysIff | App.tsx:215-236 | A click plays iff it is the human's turn, the card is valid and, for a wild card, a colour was picked. A play tops the discard pile with that card and never makes WILD the active colour; any other click changes nothing |
| Game.ClickKeeps | App.tsx:215-236 | A click keeps the invariant |
| Game.AIMoveOf | App.tsx:192-197 | The automated player's card index always names a card of its hand |
| Game.AfterAITurn | App.tsx:183-207 | The automated turn keeps the number of players |
| Game.AITurnEnds | App.tsx:189-206 | The automated turn always ends with the thinking flag cleared. A draw puts one card at the end of its hand when one can be drawn, leaves other hands alone and passes to the next player. A play is exactly `AfterPlay` of the valid chosen card: the card tops the discard pile, the direction is the play's, and the turn moves one seat, or two for an action card |
| Game.AITurnWaits | App.tsx:184-187 | With no game in progress, a move already being worked out, or the human to move, the automated turn changes nothing |
| Game.AITurnKeeps | App.tsx:183-207 | The automated turn keeps the invariant |
| Game.App.constructor | App.tsx:12-23 | The welcome state satisfies the invariant |
| Game.App.InitGame | App.tsx:28-55 | The new game is `Deal` of a standard deck with no duplicates and fresh ids, and satisfies the invariant |
| Game.App.DrawCard | App.tsx:57-82 | The new record is `AfterDraw` of the old; the invariant holds |
| Game.App.NextTurn | App.tsx:93-105 | The new record is `AfterNextTurn` of the old; the invariant holds |
| Game.App.PlayCard | App.tsx:107-181 | The new record is `AfterPlay` of the old; the invariant holds |
| Game.App.HumanCardClick | App.tsx:215-236 | Outcome and new record are those of `AfterClick`; the invariant holds |
| Game.App.AITurn | App.tsx:183-207 | The new record is `AfterAITurn` of the old; the invariant holds |

## Left out

- Rendering, styling, the pass and draw buttons, the "play again" button and the card component (`App.tsx:238-413`). These are presentation.
- The colour tables of `constants.ts` (they are presentation) and the status message strings (they carry no invariant).
- The remote model call: its prompt, transport and JSON parsing (`services/geminiService.ts:16-60`). These are foreign I/O; an arbitrary `OracleReply` replaces them.
- The `opponentHandSize` argument, which only feeds the prompt.
- The 1.5-second delay, the `useEffect` trigger and stale closures. The turn of the automated player is modelled as one sequential step from a given state.
- React batching and double invocation. Each updater is applied once, in order. The in-place `splice` and `push` on shared player objects are modelled as values, so aliasing is not modelled beyond the winner's empty hand.
- `Math.random`: both the swap index and the random id strings are replaced by supplied values.
- The shuffle at `App.tsx:39`, whose result is discarded. It has no effect, so it is not modelled.
- Game.HandlePlay: the forced-draw loop has no guard for exhausted piles, and in the source it would push `undefined` into a hand. The model instead requires `EnoughToDraw`: a valid play that does not win needs at least 2 or 4 cards in the draw and discard piles together. The same requirement passes up to `AfterPlay`, `AfterClick` and `AfterAITurn`.
- Fractional card indices in the oracle's answer. `AIMove.cardIndex` is an integer, so the model cannot express an index such as 1.5. In the source, `hand[1.5]` is `undefined`, so such an answer becomes a draw (`services/geminiService.ts:64-65`), just as an out-of-range index does.
- Game.AfterClick: the colour picker offers only the four chromatic colours, so a picked colour is required not to be WILD.
- Game.AfterAITurn: the source would fail if the turn index were out of range; the invariant rules this out, and the model requires it.
