# UNO engine and level system of unogo, in Dafny

This project models the two pieces of logic at the heart of the unogo card
game.

- The UNO rules engine of `src/lib/unoCards.ts`:
  - building the 108-card deck, shuffling it and dealing hands;
  - which cards may be played;
  - setting up a game, whose turn is next, playing a card and drawing a card;
  - the move the computer player picks.
- The XP helpers of `src/lib/levelSystem.ts`: the level an XP total reaches,
  the XP the next level needs, the rank an XP total earns, the card themes it
  unlocks and the CSS class of a rank badge.

Modules:

- `Seqs` (`seqs.dfy`): the array operations the engine leans on, as functions on sequences: `filter`, `findIndex`, `splice` of one element, and a counting helper.
- `UnoCards` (`cards.dfy`): cards, `canPlayCard`, `getPlayableCards` and `getCardDisplayValue`.
- `UnoDeck` (`deck.dfy`): `createDeck` as a loop that pushes cards and keeps a running id counter. Also `shuffle` as Fisher–Yates swaps in an array, `dealCards`, and lemmas about what the deck holds.
- `UnoGame` (`game.dfy`): the game state and the moves `initializeGame`, `getNextPlayerIndex`, `playCard` and `drawCard`. Every move returns a new state, as the source does with object spreads. The draw loops are methods.
- `UnoAi` (`ai.dfy`): `getAIMove`, with the colour count as a loop.
- `LevelSystem` (`level.dfy`): `calculateLevel`, `xpForNextLevel`, `getRank`, `getUnlockedThemes` and `getBadgeColorClass`.

`Math.random` is replaced by a parameter `pick: nat -> nat`. At step `i`,
Fisher–Yates swaps with position `pick(i) % (i + 1)`, which is any value
`Math.floor(Math.random() * (i + 1))` can take. Only properties that hold
for every `pick` are stated.

Card conservation is stated with `AllCards`: the multiset of the cards in all
hands and in both piles. Playing a card swaps the card removed from the hand
for the card put on the discard pile. Every other move keeps `AllCards`
unchanged.

## Model

| member | source | states |
|---|---|---|
| UnoCards.Decimal | src/lib/unoCards.ts:42-46 | The decimal text of a number is never empty, is made of digits only, and is one character long exactly for numbers below 10. |
| UnoCards.DecimalInjective | src/lib/unoCards.ts:42-62 | Different counter values give different decimal texts, so `card_${cardId++}` never repeats an id. |
| UnoCards.CanPlayCard | src/lib/unoCards.ts:91-108 | A card is playable exactly when it is black, or has the current colour, or the top card is not black and has the same value. |
| UnoCards.PlayOnWild | src/lib/unoCards.ts:102-105 | On a black top card, values never match: only black cards and cards of the current colour are playable. |
| UnoCards.PlayableCards | src/lib/unoCards.ts:111-113 | The result holds exactly the playable cards of the hand, each as many times as the hand holds it. |
| UnoCards.PlayableCardsInOrder | src/lib/unoCards.ts:111-113 | The playable cards keep the hand order: for a hand split in two they are those of the first part followed by those of the second, and a single card is kept exactly when it is playable. |
| UnoCards.CardDisplayValue | src/lib/unoCards.ts:359-368 | The text shown is never empty, and it is all digits exactly for a number card: the symbols of skip, reverse, draw2, wild and wild_draw4 are not digits. |
| UnoCards.DisplayValueInjective | src/lib/unoCards.ts:359-368 | Two cards with the same display text have the same value: the symbols of the special cards never clash with a digit. |
| UnoDeck.ColorFacesStep | src/lib/unoCards.ts:40-57 | Each pass of the colour loop appends that colour's block of 25 cards. |
| UnoDeck.LabelIdsDistinct | src/lib/unoCards.ts:37-62 | Cards numbered by a running counter have pairwise different ids. |
| UnoDeck.PushCard | src/lib/unoCards.ts:42 | One push appends a card with id `card_<cardId>` and advances the counter by one, so the deck stays the numbering of the faces pushed so far. |
| UnoDeck.CreateDeck | src/lib/unoCards.ts:33-66 | The loops of createDeck build exactly `FullDeck()`: one block per colour in the order red, blue, green, yellow, then four rounds of wild and wild_draw4, card i being `card_<i>`. |
| UnoDeck.FullDeck | src/lib/unoCards.ts:33-66 | The deck createDeck returns has 108 cards, and card i has id `card_<i>`. |
| UnoDeck.DeckIds | src/lib/unoCards.ts:33-66 | The deck has 108 cards, card i has id `card_<i>`, and no two ids are equal. |
| UnoDeck.OccurrencesColorFaces | src/lib/unoCards.ts:40-57 | The colour blocks hold each coloured face as often as a UNO deck should, and no black face. |
| UnoDeck.OccurrencesWildFaces | src/lib/unoCards.ts:60-63 | Each wild round adds one wild and one wild_draw4 face and nothing else. |
| UnoDeck.DeckComposition | src/lib/unoCards.ts:33-66 | For every colour and value, the deck holds `Copies` of that face. That is one 0 and two each of 1–9, skip, reverse and draw2 per colour, four black wild and four black wild_draw4 cards, and nothing else. |
| UnoDeck.DeckBlackCount | src/lib/unoCards.ts:59-63 | Exactly 8 cards of the deck are black. |
| UnoDeck.Shuffle | src/lib/unoCards.ts:69-76 | Fisher–Yates on a copy returns a permutation of the input: same length, same multiset. |
| UnoDeck.DealCards | src/lib/unoCards.ts:79-88 | There is one hand per player of at most `cardsPerPlayer` cards. The hands and the remaining deck together are a permutation of the deck. When the deck is large enough, every hand is full and the rest has `|deck| - numPlayers·cardsPerPlayer` cards. When it runs short, hand i gets `min(cardsPerPlayer, |deck| - min(|deck|, i·cardsPerPlayer))` cards, so later hands are short or empty, and `|deck| - min(|deck|, numPlayers·cardsPerPlayer)` cards remain. |
| UnoGame.HeldUpdate | src/lib/unoCards.ts:184-189 | Replacing one player changes the cards held by exactly that player's old and new hands. |
| UnoGame.HeldCardsOfHands | src/lib/unoCards.ts:122-137 | Seating players with the dealt hands puts exactly the dealt cards in hand. |
| UnoGame.MoveCards | src/lib/unoCards.ts:298-314 | Moving cards between one player's hand and the piles, without creating or losing any, keeps `AllCards`. |
| UnoGame.NextPlayerIndex | src/lib/unoCards.ts:158-166 | With at least one player the next seat is a valid index, and from a valid seat it is `(currentPlayerIndex + direction) mod n`. |
| UnoGame.NextIndex | src/lib/unoCards.ts:158-166 | With at least one player, the next seat is a valid index, from any current index. |
| UnoGame.NextIndexModular | src/lib/unoCards.ts:158-166 | From a valid seat, the next seat is `(current + direction) mod n`: a step past the end wraps to 0, and a step below 0 wraps to n-1. |
| UnoGame.SeatAfter | src/lib/unoCards.ts:231-267 | The seat that plays after a card, bypassing the next one or not, is a valid index. |
| UnoGame.Opposite | src/lib/unoCards.ts:206 | Reverse negates the direction. |
| UnoGame.TwoPlayerBypass | src/lib/unoCards.ts:207-219 | At a table of two, a card that bypasses (skip, draw2, wild_draw4, and reverse, which bypasses there) gives the turn back to the player who acted, whatever the direction. |
| UnoGame.ReverseGoesBack | src/lib/unoCards.ts:205-208 | At a table of three or more, after a reverse the turn goes to the seat one step back against the old direction. |
| UnoGame.BypassSkipsOne | src/lib/unoCards.ts:209-265 | A bypassing card moves the turn two seats on in the current direction, modulo the table size. |
| UnoGame.CardIndex | src/lib/unoCards.ts:176 | `findIndex` by id: nothing exactly when no card of the hand has the id; otherwise the first card with that id. |
| UnoGame.CardIndexFindsCard | src/lib/unoCards.ts:176 | In a hand with distinct ids, looking up a held card by its id finds that very card. |
| UnoGame.DrawOne | src/lib/unoCards.ts:240-249 | One draw keeps every card. If the draw pile is empty, it refills it from the discard pile minus its top card and leaves only that top card. It then takes the last card of the draw pile, if any. The top of the discard pile does not change. |
| UnoGame.DrawPenalty | src/lib/unoCards.ts:234-250 | The draw loop takes `min(amount, cards available below the top card)` cards and keeps every card and the top of the discard pile. The first `min(amount, |drawPile|)` cards come off the end of the draw pile, last card first. When the draw pile suffices, it loses exactly those cards and the discard pile is untouched. When it runs dry, it is refilled from the discard pile, which keeps only its top card. |
| UnoGame.AfterRemoval | src/lib/unoCards.ts:180-189 | Only the acting player changes. Their hand loses exactly the card at the found index; id, name and kind are kept; their UNO call stands only if it was made and the hand had two cards, so that one is left. |
| UnoGame.AfterRemovalHeld | src/lib/unoCards.ts:180-189 | Removing the card takes exactly that one card out of the cards held. |
| UnoGame.PlayCard | src/lib/unoCards.ts:169-276 | If no card of the hand has the id, the state comes back unchanged. Otherwise the result is `Played`, described in the next rows. A valid state (players present, a valid current seat, a non-empty discard pile) stays valid. |
| UnoGame.PlayFound | src/lib/unoCards.ts:180-276 | `Played` holds for the card found in the hand. (1) The card is on top of the discard pile. (2) All cards are kept, except that the card removed from the hand is swapped for the card played. (3) The colour is the card's colour; for a black card it is the chosen colour, or red. (4) Reverse flips the direction. (5) The turn goes to the next seat, or the one after it for a bypassing card. (6) For draw2 or wild_draw4, the next seat alone gains up to 2 or 4 cards on the end of its hand, and other hands stay as they are. The first cards it gains are the last of the draw pile, last first. If the draw pile suffices, it loses exactly those cards and the discard pile only gains the card played. If it runs dry, the discard pile is left holding only the card played. (7) Without a penalty, the piles are unchanged apart from the card played. (8) The game ends with the acting player as winner exactly when their hand becomes empty; otherwise winner and gameOver are kept. |
| UnoGame.FinishPlay | src/lib/unoCards.ts:262-275 | Sets the turn (skipping once when asked), and declares the acting player winner exactly when their hand is empty. |
| UnoGame.SpecialCard | src/lib/unoCards.ts:199-220 | The switch on the card's value gives the new direction, the bypass and the penalty. |
| UnoGame.ApplyPenalty | src/lib/unoCards.ts:180-260 | The card leaves the hand and tops the discard pile, and the next seat takes its penalty, as `PlayedHands` and `PlayedPenalty` describe. All cards are kept apart from the swap of the card removed for the card played. |
| UnoGame.PenaltyOutcome | src/lib/unoCards.ts:180-260 | The penalty dealt to the hands after the card is removed, with the card on the discard pile, is the penalty part of `Played`. |
| UnoGame.DealPenalty | src/lib/unoCards.ts:234-260 | With no penalty nothing changes. Otherwise only the target's hand changes: it keeps its cards and gains, on its end, the cards drawn, which come off the end of the draw pile, last card first. A draw pile that suffices loses exactly those cards; one that runs dry leaves the discard pile holding only its top card. Every card is kept and the top of the discard pile stays. |
| UnoGame.DrawCard | src/lib/unoCards.ts:279-315 | With both piles exhausted, only the turn advances. Otherwise the player gains exactly one card on the end of their hand and loses their UNO call. The card is the last of the draw pile, or comes after a reshuffle of the discard pile below its top card. Other players are unchanged, the turn advances one step and all cards are kept. A valid state stays valid. |
| UnoGame.HumanName | src/lib/unoCards.ts:125 | The human's name is never empty, and it is the first given name whenever that name is not empty. |
| UnoGame.SeatPlayers | src/lib/unoCards.ts:122-137 | Seat 0 is the human `human` and seats 1..aiCount are the bots `ai_<i>` / `Bot <i>`. Each holds the hand dealt to that seat and has not called UNO. |
| UnoGame.InitializeGame | src/lib/unoCards.ts:116-155 | For up to 14 players a game always starts. It is valid and freshly seated; every card of the full deck is in play; each hand has 7 cards, and the draw pile holds the 108 − 7·players − 1 others. |
| UnoGame.DealTable | src/lib/unoCards.ts:116-137 | The human and `aiCount` bots are seated, and they hold, with the cards left over, exactly the full deck. For up to 14 players each hand has 7 cards, 108 − 7·players cards are left, and one of them is not black. |
| UnoGame.TurnUpStarter | src/lib/unoCards.ts:139-154 | The first non-black card of the remaining deck starts the discard pile and sets the colour. The rest becomes the draw pile, seat 0 starts, direction 1, no winner. There is no game exactly when every remaining card is black. |
| UnoGame.StarterIndex | src/lib/unoCards.ts:140 | The index of the first non-black card, or nothing exactly when all cards are black. |
| UnoGame.NonBlackLeft | src/lib/unoCards.ts:139-143 | After dealing from the full deck, more than 8 remaining cards always include a non-black one, since the deck has only 8 black cards. |
| UnoAi.CountColors | src/lib/unoCards.ts:346-351 | Each colour's counter ends at the number of cards of that colour in the hand. Black cards are not counted. |
| UnoAi.LeaderIndex | src/lib/unoCards.ts:352 | Picks the entry a stable descending sort puts first: it has the largest count, and every earlier entry has a smaller one. |
| UnoAi.MostCommonColor | src/lib/unoCards.ts:352 | The colour named has the largest count; ties go to the colour listed first in red, blue, green, yellow. |
| UnoAi.ChooseColor | src/lib/unoCards.ts:345-353 | The colour named for a wild card is the one the hand holds most of, ties going to the first in key order. |
| UnoAi.GetAiMove | src/lib/unoCards.ts:318-356 | Draw exactly when no card of the hand is playable. Otherwise the card played is playable and is the first playable card of the lowest tier (number, then action, then wild). A colour is named exactly when the card is black, and it is the most common colour of the hand. |
| UnoAi.TierFilters | src/lib/unoCards.ts:329-331 | The number and special filters of the playable non-wild cards select the playable cards of tiers 0 and 1 of the hand. |
| UnoAi.PicksFirstOfLowestTier | src/lib/unoCards.ts:333-341 | The card the three-way choice picks is the first playable card of the lowest tier present. |
| LevelSystem.Root | src/lib/levelSystem.ts:35 | `floor(sqrt(xp / 100))` is the k with 100·k² ≤ xp < 100·(k+1)². |
| LevelSystem.RootUnique | src/lib/levelSystem.ts:35 | Only one k satisfies those bounds. |
| LevelSystem.CalculateLevel | src/lib/levelSystem.ts:33-36 | The level is at least 1, and 100·(level−1)² ≤ xp < 100·level². |
| LevelSystem.LevelIsLargestRoot | src/lib/levelSystem.ts:33-36 | Every k with 100·k² ≤ xp is below the level, so the level is one more than the largest such k. |
| LevelSystem.LevelMonotone | src/lib/levelSystem.ts:33-36 | More XP never gives a lower level. |
| LevelSystem.XpForNextLevel | src/lib/levelSystem.ts:39-41 | The XP threshold is never negative, and it is zero exactly for level 0. |
| LevelSystem.LevelThresholds | src/lib/levelSystem.ts:33-41 | `xpForNextLevel(level − 1) ≤ xp < xpForNextLevel(level)` for the level `xp` reaches. |
| LevelSystem.ThresholdReachesNextLevel | src/lib/levelSystem.ts:33-41 | Having exactly `xpForNextLevel(L)` XP gives level L + 1. |
| LevelSystem.Insert | src/lib/levelSystem.ts:54 | One insertion step of the sort keeps every rank, adds the new one, and puts either it or the old head first. |
| LevelSystem.InsertDescending | src/lib/levelSystem.ts:54 | Inserting into a list sorted by descending `min_xp` keeps it sorted. |
| LevelSystem.SortByMinXp | src/lib/levelSystem.ts:54 | The sorted copy is a permutation of the ranks, ordered by descending `min_xp`. |
| LevelSystem.GetRank | src/lib/levelSystem.ts:53-56 | No rank exactly for an empty list; otherwise a rank of the list. If some rank is reached, the result is reached and has the largest `min_xp` among reached ranks. If none is reached, the result has the smallest `min_xp`. |
| LevelSystem.HighestReached | src/lib/levelSystem.ts:55 | The first reached rank of the sorted copy is in the list, and no reached rank asks more XP. |
| LevelSystem.NoneReached | src/lib/levelSystem.ts:55 | When `find` finds nothing, no rank of the list is reached. |
| LevelSystem.LastIsLowest | src/lib/levelSystem.ts:55 | The last rank of the sorted copy is in the list and asks least. |
| LevelSystem.GetUnlockedThemes | src/lib/levelSystem.ts:59-61 | A theme is in the result exactly when it is in the list and `required_xp ≤ xp`, as often as the list holds it. |
| LevelSystem.UnlockedThemesInOrder | src/lib/levelSystem.ts:59-61 | The unlocked themes keep the list order: for a list split in two they are those of the first part followed by those of the second, and a single theme is kept exactly when `required_xp ≤ xp`. |
| LevelSystem.UnlockedThemesGrow | src/lib/levelSystem.ts:59-61 | Raising XP only adds themes. The themes of the lower total are those of the higher total that the lower total unlocks, in the same order. |
| LevelSystem.GetBadgeColorClass | src/lib/levelSystem.ts:64-76 | The class is never empty. A colour in the map gets its mapped class, and any other colour gets the gray default. |
| LevelSystem.BadgeClassDefault | src/lib/levelSystem.ts:64-76 | The eight known colours get their mapped class. The gray default comes exactly for "gray" and for every name not in the map. |

## Left out

- `levelProgress` (src/lib/levelSystem.ts:44-50) divides floating-point numbers into a percentage, so it is not modelled.
- `getRankGlowClass` and `getCardColorClass` are CSS lookups for the interface and are not part of this model.
- LevelSystem.CalculateLevel: `xp` is a natural number, and `floor(sqrt(xp / 100))` is exact integer arithmetic. Negative XP, which yields NaN in the source, and floating-point rounding of `Math.sqrt` for huge totals are not modelled.
- LevelSystem.GetBadgeColorClass: the lookup is a Dafny map of the eight names. Keys that a JavaScript object inherits from its prototype (such as "toString") are not modelled.
- LevelSystem.GetRank: the source returns `undefined` for an empty list; the model returns `None`. `min_xp` is an integer, so the subtraction in the comparator cannot overflow or give NaN.
- LevelSystem.SortByMinXp: the source sorts a copy and never touches the caller's array. In the model all lists are values, so "the input is not reordered" holds by construction and is not stated.
- UnoDeck.Shuffle: `Math.random` is the oracle `pick`, so only the permutation property is stated. Nothing is said about uniformity.
- UnoDeck.DealCards: the hands and remaining deck are modelled as sequence slices rather than as repeated `splice` on one array.
- UnoGame.InitializeGame: when every remaining card is black, the model has no game (`None`). The source then starts on a black card and sets `currentColor` to 'black', outside its own colour type. When nothing remains, the source reads a missing card. Both need more than 14 players, and for up to 14 players the model always starts a game.
- UnoAi.GetAiMove: requires a non-empty discard pile. On an empty one the source's top card is undefined, and it throws only if `canPlayCard` reaches `topCard.color` (src/lib/unoCards.ts:103). That happens for a card that is neither black nor of the current colour. An empty hand, or a hand of black and current-colour cards only, gets a move without error; the model does not cover those calls. InitializeGame starts the discard pile with one card, PlayCard puts a card on it, and DrawCard never empties a non-empty one, so the requirement holds during play.
- UnoAi.LeaderIndex: `Object.entries(...).sort(...)` is modelled by its result: the earliest entry with the largest count, which a stable sort places first. The sort itself is not modelled.
- The `|| 'red'` fallback of the chosen colour is never taken, because the four entries always exist. The model names red only when red leads the counts.
- Calling UNO: the engine keeps only the `hasCalledUno` flag. No code declares UNO or penalises a missed call, so nothing of that kind is modelled.
- The multiplayer hooks, matchmaking, Supabase storage, React pages, sounds and AI delay timers are not part of this model.
