/** The game state of the UNO engine (src/lib/unoCards.ts) and the moves
    that change it: setting up a game, playing a card and drawing a card.
    Every move takes a state and returns a new one, as the source does with
    object spreads. */
module UnoGame {
  import opened Seqs
  import opened UnoCards
  import opened UnoDeck

  datatype Player = Player(id: string, name: string, isAI: bool, hand: seq<Card>, hasCalledUno: bool)

  /** `1 | -1`: clockwise or counter-clockwise. */
  type Direction = d: int | d == 1 || d == -1 witness 1

  datatype GameState = GameState(
    players: seq<Player>,
    currentPlayerIndex: int,
    direction: Direction,
    drawPile: seq<Card>,
    discardPile: seq<Card>,
    currentColor: CardColor,
    winner: Option<Player>,
    gameOver: bool)

  /** A state the engine can be in between moves: someone to play, a seat
      index that names a player, and a top card on the discard pile. */
  predicate Valid(s: GameState)
  {
    && |s.players| >= 1
    && 0 <= s.currentPlayerIndex < |s.players|
    && |s.discardPile| >= 1
  }

  /** The face-up card of a pile: its last element. */
  function Top(pile: seq<Card>): Card
    requires |pile| >= 1
  {
    pile[|pile| - 1]
  }

  // ---------------------------------------------------------------------
  // Cards in play

  /** The cards in the players' hands. */
  function HeldCards(players: seq<Player>): multiset<Card>
  {
    if players == [] then multiset{}
    else HeldCards(players[..|players| - 1]) + multiset(players[|players| - 1].hand)
  }

  /** Every card in the game: all hands and both piles. */
  function AllCards(s: GameState): multiset<Card>
  {
    HeldCards(s.players) + multiset(s.drawPile) + multiset(s.discardPile)
  }

  /** Replacing one player changes the cards in hand by exactly that
      player's hand. */
  lemma {:induction false} HeldUpdate(players: seq<Player>, k: nat, p: Player)
    requires k < |players|
    ensures multiset(players[k].hand) <= HeldCards(players)
    ensures HeldCards(players[k := p]) == HeldCards(players) - multiset(players[k].hand) + multiset(p.hand)
  {
    var n := |players| - 1;
    var rest, last := players[..n], multiset(players[n].hand);
    assert HeldCards(players) == HeldCards(rest) + last;
    if k == n {
      assert players[k := p][..n] == rest;
      SwapInSum(HeldCards(rest), multiset{}, last, multiset(p.hand));
    } else {
      assert players[k := p][..n] == rest[k := p];
      assert rest[k] == players[k];
      HeldUpdate(rest, k, p);
      SwapInSum(HeldCards(rest), last, multiset(players[k].hand), multiset(p.hand));
    }
  }

  /** Swapping a part `h` of a sum `m + x` for `h'`, where `h` lies in `m`. */
  lemma SwapInSum<T>(m: multiset<T>, x: multiset<T>, h: multiset<T>, h': multiset<T>)
    ensures h <= m + x + h
    ensures h <= m ==> m - h + h' + x == m + x - h + h'
    ensures m + x + h - h + h' == m + x + h'
  {
  }

  /** Players holding the dealt hands hold the cards that were dealt. */
  lemma {:induction false} HeldCardsOfHands(players: seq<Player>, hands: seq<seq<Card>>)
    requires |players| == |hands|
    requires forall i :: 0 <= i < |players| ==> players[i].hand == hands[i]
    ensures HeldCards(players) == multiset(Flatten(hands))
  {
    if players != [] {
      var n := |players| - 1;
      HeldCardsOfHands(players[..n], hands[..n]);
    }
  }

  /** Cards that only move between one player's hand and the piles leave
      the cards of the game as they were. */
  lemma MoveCards(state: GameState, k: nat, p: Player, drawPile: seq<Card>, discardPile: seq<Card>)
    requires k < |state.players|
    requires multiset(p.hand) + multiset(drawPile) + multiset(discardPile) ==
             multiset(state.players[k].hand) + multiset(state.drawPile) + multiset(state.discardPile)
    ensures AllCards(state.(players := state.players[k := p], drawPile := drawPile, discardPile := discardPile)) ==
            AllCards(state)
  {
    HeldUpdate(state.players, k, p);
    Exchange(HeldCards(state.players), multiset(state.players[k].hand), multiset(p.hand),
             multiset(state.drawPile), multiset(drawPile), multiset(state.discardPile), multiset(discardPile));
  }

  /** Multiset bookkeeping for an exchange of cards between a part `h` of
      `m` and two piles. */
  lemma Exchange<T>(m: multiset<T>, h: multiset<T>, h': multiset<T>,
                    d: multiset<T>, d': multiset<T>, c: multiset<T>, c': multiset<T>)
    requires h <= m && h' + d' + c' == h + d + c
    ensures m - h + h' + d' + c' == m + d + c
  {
    forall x
      ensures (m - h + h' + d' + c')[x] == (m + d + c)[x]
    {
      assert (h' + d' + c')[x] == (h + d + c)[x];
    }
  }

  /** Adding the same multiset to both sides of an equation. */
  lemma AddToBoth<T>(h: multiset<T>, x: multiset<T>, d': multiset<T>, c': multiset<T>, d: multiset<T>, c: multiset<T>)
    requires x + d' + c' == d + c
    ensures h + x + d' + c' == h + d + c
  {
    forall e
      ensures (h + x + d' + c')[e] == (h + d + c)[e]
    {
      assert (x + d' + c')[e] == (d + c)[e];
    }
  }

  // ---------------------------------------------------------------------
  // Turn order

  /** `getNextPlayerIndex` on the seat count, the current seat and the
      direction: one seat on, wrapping past either end of the table. */
  function NextIndex(numPlayers: nat, current: int, direction: Direction): (next: int)
    ensures numPlayers >= 1 ==> 0 <= next < numPlayers
  {
    var next := current + direction;
    var next := if next >= numPlayers then 0 else next;
    if next < 0 then numPlayers - 1 else next
  }

  /** `getNextPlayerIndex(state)`. */
  function NextPlayerIndex(state: GameState): (next: int)
    ensures |state.players| >= 1 ==> 0 <= next < |state.players|
    ensures 0 <= state.currentPlayerIndex < |state.players| ==>
              next == (state.currentPlayerIndex + state.direction) % |state.players|
  {
    var next := NextIndex(|state.players|, state.currentPlayerIndex, state.direction);
    if 0 <= state.currentPlayerIndex < |state.players| then
      NextIndexModular(|state.players|, state.currentPlayerIndex, state.direction);
      next
    else next
  }

  /** From a seat of the table, getNextPlayerIndex is one step of
      arithmetic modulo the number of players. */
  lemma NextIndexModular(numPlayers: nat, current: int, direction: Direction)
    requires 0 <= current < numPlayers
    ensures NextIndex(numPlayers, current, direction) == (current + direction) % numPlayers
  {
    ModRange(current + direction, numPlayers);
  }

  /** The seat that plays next when `bypass` passes over one. */
  function SeatAfter(numPlayers: nat, current: int, direction: Direction, bypass: bool): (seat: int)
    ensures numPlayers >= 1 ==> 0 <= seat < numPlayers
  {
    var next := NextIndex(numPlayers, current, direction);
    if bypass then NextIndex(numPlayers, next, direction) else next
  }

  /** The direction after a card of `value` is played. */
  function DirectionAfter(value: Value, direction: Direction): Direction
  {
    if value == Reverse then Opposite(direction) else direction
  }

  /** `direction * -1`. */
  function Opposite(direction: Direction): (r: Direction)
    ensures r as int == -(direction as int)
  {
    if direction == 1 then -1 else 1
  }

  /** Whether a card of `value` passes over the next seat: skip, draw2 and
      wild_draw4 always do, and reverse does at a table of two. */
  function Bypasses(value: Value, numPlayers: nat): bool
  {
    value in {Skip, Draw2, WildDraw4} || (value == Reverse && numPlayers == 2)
  }

  /** How many cards the bypassed player must take. */
  function Penalty(value: Value): nat
  {
    if value == Draw2 then 2 else if value == WildDraw4 then 4 else 0
  }

  /** At a table of two, reverse bypasses like skip and the draw cards, and
      a card that bypasses gives the turn straight back, whichever way play
      runs. */
  lemma {:induction false} TwoPlayerBypass(current: int, direction: Direction)
    requires 0 <= current < 2
    ensures forall v: Value :: Bypasses(v, 2) <==> v in {Skip, Reverse, Draw2, WildDraw4}
    ensures SeatAfter(2, current, direction, true) == current
  {
    assert NextIndex(2, current, direction) == 1 - current;
  }

  /** With three or more players, a reverse hands the turn to the seat that
      played just before. */
  lemma ReverseGoesBack(numPlayers: nat, current: int, direction: Direction)
    requires numPlayers >= 3 && 0 <= current < numPlayers
    ensures SeatAfter(numPlayers, current, DirectionAfter(Reverse, direction), Bypasses(Reverse, numPlayers)) ==
            (current - direction) % numPlayers
  {
    NextIndexModular(numPlayers, current, Opposite(direction));
  }

  /** A bypass moves the turn two seats on. */
  lemma {:induction false} BypassSkipsOne(numPlayers: nat, current: int, direction: Direction)
    requires numPlayers >= 2 && 0 <= current < numPlayers
    ensures SeatAfter(numPlayers, current, direction, true) == (current + 2 * direction) % numPlayers
  {
    var next := NextIndex(numPlayers, current, direction);
    NextIndexModular(numPlayers, current, direction);
    NextIndexModular(numPlayers, next, direction);
    ModRange(current + direction, numPlayers);
    ModRange(next + direction, numPlayers);
    ModRange(current + 2 * direction, numPlayers);
  }

  /** `x % n` for `x` within one lap of `[0, n)`. */
  lemma ModRange(x: int, n: int)
    requires n >= 1
    ensures 0 <= x < n ==> x % n == x
    ensures n <= x < 2 * n ==> x % n == x - n
    ensures -n <= x < 0 ==> x % n == x + n
  {
  }

  // ---------------------------------------------------------------------
  // Moves

  /** The first card of `hand` with this id, as `findIndex` finds it. */
  function CardIndex(hand: seq<Card>, id: string): (r: Option<nat>)
    ensures r.None? <==> forall k :: 0 <= k < |hand| ==> hand[k].id != id
    ensures r.Some? ==> r.value < |hand| && hand[r.value].id == id
    ensures r.Some? ==> forall k :: 0 <= k < r.value ==> hand[k].id != id
  {
    IndexOf(hand, (c: Card) => c.id == id)
  }

  /** When no two cards of the hand share an id, the card found by id is
      the card itself. */
  lemma CardIndexFindsCard(hand: seq<Card>, card: Card)
    requires card in hand
    requires forall i, j :: 0 <= i < j < |hand| ==> hand[i].id != hand[j].id
    ensures CardIndex(hand, card.id).Some? && hand[CardIndex(hand, card.id).value] == card
  {
    var k :| 0 <= k < |hand| && hand[k] == card;
    var r := CardIndex(hand, card.id);
    assert r.Some?;
  }

  /** One draw, as both playCard and drawCard do it: when the draw pile is
      empty, refill it with the discard pile minus its top card (shuffled by
      `pick`) and keep only that top card; then take the last card of the
      draw pile, if there is one. */
  method DrawOne(drawPile: seq<Card>, discardPile: seq<Card>, pick: nat -> nat)
    returns (drawn: seq<Card>, drawPile': seq<Card>, discardPile': seq<Card>)
    requires |drawPile| > 0 || |discardPile| > 0
    ensures multiset(drawn) + multiset(drawPile') + multiset(discardPile') ==
            multiset(drawPile) + multiset(discardPile)
    ensures |drawn| + |drawPile'| + |discardPile'| == |drawPile| + |discardPile|
    ensures |drawn| == if |drawPile| > 0 || |discardPile| > 1 then 1 else 0
    ensures |discardPile| > 0 ==>
              |discardPile'| > 0 && Top(discardPile') == Top(discardPile)
    ensures |drawPile| > 0 ==>
              && drawn == [drawPile[|drawPile| - 1]]
              && drawPile' == drawPile[..|drawPile| - 1]
              && discardPile' == discardPile
    ensures |drawPile| == 0 ==> discardPile' == [Top(discardPile)]
  {
    drawPile', discardPile' := drawPile, discardPile;
    if |drawPile'| == 0 {
      var last := |discardPile'| - 1;
      var topCard := discardPile'[last];
      assert discardPile' == discardPile'[..last] + [topCard];
      drawPile' := Shuffle(discardPile'[..last], pick);
      discardPile' := [topCard];
    }
    drawn := [];
    if |drawPile'| > 0 {
      var last := |drawPile'| - 1;
      assert drawPile' == drawPile'[..last] + [drawPile'[last]];
      drawn := [drawPile'[last]];
      drawPile' := drawPile'[..last];
    }
  }

  /** The draw loop of playCard: `amount` draws into one list. */
  method DrawPenalty(drawPile: seq<Card>, discardPile: seq<Card>, amount: nat, pick: nat -> nat)
    returns (drawn: seq<Card>, drawPile': seq<Card>, discardPile': seq<Card>)
    requires |discardPile| >= 1
    ensures |discardPile'| >= 1 && Top(discardPile') == Top(discardPile)
    ensures multiset(drawn) + multiset(drawPile') + multiset(discardPile') ==
            multiset(drawPile) + multiset(discardPile)
    ensures |drawn| == Min(amount, |drawPile| + |discardPile| - 1)
    // The draw pile is taken from its end, card after card.
    ensures forall k :: 0 <= k < Min(amount, |drawPile|) ==> drawn[k] == drawPile[|drawPile| - 1 - k]
    ensures amount <= |drawPile| ==>
              && discardPile' == discardPile
              && drawPile' == drawPile[..|drawPile| - amount]
    // Running it dry refills it from the discard pile, which keeps only its top card.
    ensures amount > |drawPile| ==> discardPile' == [Top(discardPile)]
  {
    drawn, drawPile', discardPile' := [], drawPile, discardPile;
    for i := 0 to amount
      invariant |discardPile'| >= 1 && Top(discardPile') == Top(discardPile)
      invariant multiset(drawn) + multiset(drawPile') + multiset(discardPile') ==
                multiset(drawPile) + multiset(discardPile)
      invariant |drawn| + |drawPile'| + |discardPile'| == |drawPile| + |discardPile|
      invariant |drawn| == Min(i, |drawPile| + |discardPile| - 1)
      invariant forall k :: 0 <= k < Min(i, |drawPile|) ==> drawn[k] == drawPile[|drawPile| - 1 - k]
      invariant i <= |drawPile| ==> discardPile' == discardPile && drawPile' == drawPile[..|drawPile| - i]
      invariant i > |drawPile| ==> discardPile' == [Top(discardPile)]
    {
      var one, nextDraw, nextDiscard := DrawOne(drawPile', discardPile', pick);
      assert Top(nextDiscard) == Top(discardPile');
      AddToBoth(multiset(drawn), multiset(one), multiset(nextDraw), multiset(nextDiscard),
                multiset(drawPile'), multiset(discardPile'));
      drawn, drawPile', discardPile' := drawn + one, nextDraw, nextDiscard;
    }
  }

  /** The players after the card at `cardIndex` leaves the hand of seat
      `playerIndex`: the flag `hasCalledUno` survives only when one card is
      left. */
  function AfterRemoval(players: seq<Player>, playerIndex: nat, cardIndex: nat): (r: seq<Player>)
    requires playerIndex < |players| && cardIndex < |players[playerIndex].hand|
    ensures |r| == |players|
    ensures forall j :: 0 <= j < |r| && j != playerIndex ==> r[j] == players[j]
    // The seat keeps its id, name and kind; its call of "UNO" stands only
    // when the play leaves it exactly one card.
    ensures r[playerIndex] == players[playerIndex].(hand := RemoveAt(players[playerIndex].hand, cardIndex),
                                                    hasCalledUno := |players[playerIndex].hand| == 2 && players[playerIndex].hasCalledUno)
  {
    var player := players[playerIndex];
    var newHand := RemoveAt(player.hand, cardIndex);
    players[playerIndex := player.(hand := newHand, hasCalledUno := if |newHand| == 1 then player.hasCalledUno else false)]
  }

  /** Removing the card takes exactly that one card out of the hands. */
  lemma AfterRemovalHeld(players: seq<Player>, playerIndex: nat, cardIndex: nat)
    requires playerIndex < |players| && cardIndex < |players[playerIndex].hand|
    ensures players[playerIndex].hand[cardIndex] in HeldCards(players)
    ensures HeldCards(AfterRemoval(players, playerIndex, cardIndex)) ==
            HeldCards(players) - multiset{players[playerIndex].hand[cardIndex]}
  {
    var player := players[playerIndex];
    var newPlayer := AfterRemoval(players, playerIndex, cardIndex)[playerIndex];
    assert AfterRemoval(players, playerIndex, cardIndex) == players[playerIndex := newPlayer];
    HeldUpdate(players, playerIndex, newPlayer);
    RemoveOne(HeldCards(players), multiset(player.hand), player.hand[cardIndex]);
  }

  /** Taking `x` out of a part `h` of `m` takes it out of `m`. */
  lemma RemoveOne<T>(m: multiset<T>, h: multiset<T>, x: T)
    requires h <= m && x in h
    ensures m - h + (h - multiset{x}) == m - multiset{x}
  {
  }

  /** `playCard`: seat `playerIndex` plays `card`, found in the hand by id.
      Whether the play is legal, whether it is that seat's turn and whether
      the game is over are left to the caller, as in the source. */
  method PlayCard(state: GameState, playerIndex: int, card: Card, chosenColor: Option<CardColor>, pick: nat -> nat)
    returns (s': GameState)
    requires 0 <= playerIndex < |state.players|
    ensures |s'.players| == |state.players|
    ensures Valid(state) ==> Valid(s')
    // A card that is not in the hand changes nothing.
    ensures CardIndex(state.players[playerIndex].hand, card.id).None? ==> s' == state
    ensures CardIndex(state.players[playerIndex].hand, card.id).Some? ==>
      Played(state, playerIndex, CardIndex(state.players[playerIndex].hand, card.id).value, card, chosenColor, s')
  {
    var found := CardIndex(state.players[playerIndex].hand, card.id);
    if found.None? {
      return state;
    }
    s' := PlayFound(state, playerIndex, found.value, card, chosenColor, pick);
  }

  /** The state after the card at `i` of seat `playerIndex` was played as
      `card`, with `chosenColor` named for a wild card. */
  ghost predicate Played(state: GameState, playerIndex: nat, i: nat, card: Card, chosenColor: Option<CardColor>,
                         s': GameState)
    requires playerIndex < |state.players| && i < |state.players[playerIndex].hand|
  {
    && |s'.players| == |state.players|
    && PlayedPiles(state, playerIndex, i, card, s')
    && PlayedTurn(state, card, chosenColor, s')
    && PlayedHands(state, playerIndex, i, card, s'.players, s'.drawPile, s'.discardPile)
    && PlayedPenalty(state, playerIndex, i, card, s'.players, s'.drawPile, s'.discardPile)
    && PlayedOutcome(state, playerIndex, i, s')
  }

  /** The card found leaves the hand and `card` tops the discard pile. */
  ghost predicate PlayedPiles(state: GameState, playerIndex: nat, i: nat, card: Card, s': GameState)
    requires playerIndex < |state.players| && i < |state.players[playerIndex].hand|
  {
    && |s'.discardPile| >= 1 && Top(s'.discardPile) == card
    && AllCards(s') == AllCards(state) - multiset{state.players[playerIndex].hand[i]} + multiset{card}
  }

  /** Colour, direction and whose turn it is after `card`. */
  ghost predicate PlayedTurn(state: GameState, card: Card, chosenColor: Option<CardColor>, s': GameState)
  {
    var n := |state.players|;
    var direction := DirectionAfter(card.value, state.direction);
    && s'.currentColor == (if card.color == Black then chosenColor.GetOr(Red) else card.color)
    && s'.direction == direction
    && s'.currentPlayerIndex == SeatAfter(n, state.currentPlayerIndex, direction, Bypasses(card.value, n))
  }

  /** Nobody but the bypassed seat takes cards: `players'`, `drawPile'`
      and `discardPile'` are the seats and piles after the play. */
  ghost predicate PlayedHands(state: GameState, playerIndex: nat, i: nat, card: Card,
                              players': seq<Player>, drawPile': seq<Card>, discardPile': seq<Card>)
    requires playerIndex < |state.players| && i < |state.players[playerIndex].hand|
  {
    var n := |state.players|;
    var target := NextIndex(n, state.currentPlayerIndex, DirectionAfter(card.value, state.direction));
    var removed := AfterRemoval(state.players, playerIndex, i);
    && |players'| == n
    && (Penalty(card.value) == 0 ==>
          && players' == removed
          && drawPile' == state.drawPile
          && discardPile' == state.discardPile + [card])
    && (Penalty(card.value) > 0 ==>
          var hand := removed[target].hand;
          var hand' := players'[target].hand;
          && Bypasses(card.value, n)
          && players' == removed[target := removed[target].(hand := hand')]
          && |hand'| == |hand| + Min(Penalty(card.value), |state.drawPile| + |state.discardPile|)
          && hand'[..|hand|] == hand)
  }

  /** Which cards the bypassed seat draws and what the piles become: the
      cards come off the end of the draw pile; a draw pile that runs dry is
      refilled from the discard pile, which keeps only the card played. */
  ghost predicate PlayedPenalty(state: GameState, playerIndex: nat, i: nat, card: Card,
                                players': seq<Player>, drawPile': seq<Card>, discardPile': seq<Card>)
    requires playerIndex < |state.players| && i < |state.players[playerIndex].hand|
  {
    var n := |state.players|;
    var target := NextIndex(n, state.currentPlayerIndex, DirectionAfter(card.value, state.direction));
    var hand := AfterRemoval(state.players, playerIndex, i)[target].hand;
    var amount, draw := Penalty(card.value), state.drawPile;
    && |players'| == n
    && |hand| + Min(amount, |draw|) <= |players'[target].hand|
    && (forall k :: |hand| <= k < |hand| + Min(amount, |draw|) ==> players'[target].hand[k] == draw[|draw| + |hand| - 1 - k])
    && (amount <= |draw| ==> drawPile' == draw[..|draw| - amount] && discardPile' == state.discardPile + [card])
    && (amount > |draw| ==> discardPile' == [card])
  }

  /** A hand emptied by the play wins the game. */
  ghost predicate PlayedOutcome(state: GameState, playerIndex: nat, i: nat, s': GameState)
    requires playerIndex < |state.players| && i < |state.players[playerIndex].hand|
  {
    var hand := state.players[playerIndex].hand;
    && (|hand| == 1 ==> playerIndex < |s'.players| && s'.gameOver && s'.winner == Some(s'.players[playerIndex]))
    && (|hand| != 1 ==> s'.gameOver == state.gameOver && s'.winner == state.winner)
  }

  /** playCard once the card has been found at index `cardIndex`. */
  method PlayFound(state: GameState, playerIndex: nat, cardIndex: nat, card: Card, chosenColor: Option<CardColor>,
                   pick: nat -> nat)
    returns (s': GameState)
    requires playerIndex < |state.players| && cardIndex < |state.players[playerIndex].hand|
    ensures |s'.players| == |state.players|
    ensures PlayedPiles(state, playerIndex, cardIndex, card, s')
    ensures PlayedTurn(state, card, chosenColor, s')
    ensures PlayedHands(state, playerIndex, cardIndex, card, s'.players, s'.drawPile, s'.discardPile)
    ensures PlayedPenalty(state, playerIndex, cardIndex, card, s'.players, s'.drawPile, s'.discardPile)
    ensures PlayedOutcome(state, playerIndex, cardIndex, s')
  {
    var newColor: CardColor := if card.color == Black then chosenColor.GetOr(Red) else card.color;
    var newDirection, skipNext, drawAmount := SpecialCard(card.value, state.direction, |state.players|);

    // getNextPlayerIndex of the state with the new players, pile, colour and direction.
    var nextIndex := NextIndex(|state.players|, state.currentPlayerIndex, newDirection);

    var newPlayers, newDrawPile, newDiscardPile :=
      ApplyPenalty(state, playerIndex, cardIndex, card, nextIndex, drawAmount, pick);
    var newHand := AfterRemoval(state.players, playerIndex, cardIndex)[playerIndex].hand;

    s' := FinishPlay(state, newPlayers, nextIndex, newDirection, skipNext, newDrawPile, newDiscardPile, newColor,
                     playerIndex, |newHand| == 0);
  }

  /** The cards of playCard: the card leaves the hand and goes on the
      discard pile, and the next seat, `target`, draws `drawAmount` cards. */
  method ApplyPenalty(state: GameState, playerIndex: nat, cardIndex: nat, card: Card, target: int, drawAmount: nat,
                      pick: nat -> nat)
    returns (players': seq<Player>, drawPile': seq<Card>, discardPile': seq<Card>)
    requires playerIndex < |state.players| && cardIndex < |state.players[playerIndex].hand|
    requires target == NextIndex(|state.players|, state.currentPlayerIndex, DirectionAfter(card.value, state.direction))
    requires drawAmount == Penalty(card.value)
    ensures PlayedHands(state, playerIndex, cardIndex, card, players', drawPile', discardPile')
    ensures PlayedPenalty(state, playerIndex, cardIndex, card, players', drawPile', discardPile')
    ensures |discardPile'| >= 1 && Top(discardPile') == card
    ensures HeldCards(players') + multiset(drawPile') + multiset(discardPile') ==
            AllCards(state) - multiset{state.players[playerIndex].hand[cardIndex]} + multiset{card}
    ensures |players'| == |state.players|
  {
    var removed := AfterRemoval(state.players, playerIndex, cardIndex);
    var newDiscardPile := state.discardPile + [card];

    // Every card but the one played stays in the game; `card` joins it.
    assert HeldCards(removed) + multiset(state.drawPile) + multiset(newDiscardPile) ==
           AllCards(state) - multiset{state.players[playerIndex].hand[cardIndex]} + multiset{card} by {
      AfterRemovalHeld(state.players, playerIndex, cardIndex);
      assert multiset(newDiscardPile) == multiset(state.discardPile) + multiset{card};
      PlayBookkeeping(HeldCards(state.players), state.players[playerIndex].hand[cardIndex],
                      multiset(state.drawPile), multiset(state.discardPile), card);
    }
    assert Top(newDiscardPile) == card && |newDiscardPile| - 1 == |state.discardPile|;
    players', drawPile', discardPile' := DealPenalty(removed, target, state.drawPile, newDiscardPile, drawAmount, pick);
    PenaltyOutcome(state, playerIndex, cardIndex, card, players', drawPile', discardPile');
  }

  /** What DealPenalty promises for the hand without the card played and
      the discard pile with it is the penalty part of `Played`. */
  lemma PenaltyOutcome(state: GameState, playerIndex: nat, i: nat, card: Card,
                       players': seq<Player>, drawPile': seq<Card>, discardPile': seq<Card>)
    requires playerIndex < |state.players| && i < |state.players[playerIndex].hand|
    requires PenaltyDealt(AfterRemoval(state.players, playerIndex, i),
                          NextIndex(|state.players|, state.currentPlayerIndex, DirectionAfter(card.value, state.direction)),
                          state.drawPile, state.discardPile + [card], Penalty(card.value),
                          players', drawPile', discardPile')
    ensures PlayedHands(state, playerIndex, i, card, players', drawPile', discardPile')
    ensures PlayedPenalty(state, playerIndex, i, card, players', drawPile', discardPile')
  {
    var target := NextIndex(|state.players|, state.currentPlayerIndex, DirectionAfter(card.value, state.direction));
    var hand := AfterRemoval(state.players, playerIndex, i)[target].hand;
    var amount, draw := Penalty(card.value), state.drawPile;
    assert |players'[target].hand| == |hand| + Min(amount, |draw| + |state.discardPile|);
  }

  /** The end of playCard: the seat after `nextIndex` when the next seat is
      passed over, and the winner when the hand played from was emptied. */
  method FinishPlay(state: GameState, players: seq<Player>, nextIndex: int, direction: Direction, skipNext: bool,
                    drawPile: seq<Card>, discardPile: seq<Card>, color: CardColor, playerIndex: nat, emptied: bool)
    returns (s': GameState)
    requires playerIndex < |players|
    ensures s'.players == players && s'.direction == direction && s'.drawPile == drawPile
    ensures s'.discardPile == discardPile && s'.currentColor == color
    ensures s'.currentPlayerIndex == if skipNext then NextIndex(|players|, nextIndex, direction) else nextIndex
    ensures emptied ==> s'.gameOver && s'.winner == Some(players[playerIndex])
    ensures !emptied ==> s'.gameOver == state.gameOver && s'.winner == state.winner
  {
    var index := nextIndex;
    if skipNext {
      index := NextIndex(|players|, nextIndex, direction);
    }
    var winner, gameOver := state.winner, state.gameOver;
    if emptied {
      winner, gameOver := Some(players[playerIndex]), true;
    }
    s' := GameState(players, index, direction, drawPile, discardPile, color, winner, gameOver);
  }

  /** The switch of playCard on the value of the card played: a reverse
      turns the direction (and passes over the next seat at a table of two),
      a skip passes over the next seat, and draw2 and wild_draw4 make that
      seat draw two and four cards. */
  method SpecialCard(value: Value, direction: Direction, numPlayers: nat)
    returns (newDirection: Direction, skipNext: bool, drawAmount: nat)
    ensures newDirection == DirectionAfter(value, direction)
    ensures skipNext == Bypasses(value, numPlayers)
    ensures drawAmount == Penalty(value)
  {
    newDirection, skipNext, drawAmount := direction, false, 0;
    match value {
      case Reverse =>
        newDirection := Opposite(direction);
        if numPlayers == 2 { skipNext := true; }
      case Skip =>
        skipNext := true;
      case Draw2 =>
        drawAmount := 2;
        skipNext := true;
      case WildDraw4 =>
        drawAmount := 4;
        skipNext := true;
      case _ =>
    }
  }

  /** What the penalty of playCard leaves: only seat `target` changes, its
      hand growing by the cards drawn, the first of them taken from the end
      of the draw pile; a draw pile that runs dry is refilled from the
      discard pile, which keeps only its top card. */
  ghost predicate PenaltyDealt(players: seq<Player>, target: nat, drawPile: seq<Card>, discardPile: seq<Card>,
                               amount: nat, players': seq<Player>, drawPile': seq<Card>, discardPile': seq<Card>)
    requires target < |players| && |discardPile| >= 1
  {
    && |players'| == |players|
    && (amount == 0 ==> players' == players && drawPile' == drawPile && discardPile' == discardPile)
    && var hand, hand' := players[target].hand, players'[target].hand;
    && players' == players[target := players[target].(hand := hand')]
    && |hand'| == |hand| + Min(amount, |drawPile| + |discardPile| - 1)
    && hand'[..|hand|] == hand
    && (forall k :: |hand| <= k < |hand| + Min(amount, |drawPile|) ==> hand'[k] == drawPile[|drawPile| + |hand| - 1 - k])
    && (amount <= |drawPile| ==> drawPile' == drawPile[..|drawPile| - amount] && discardPile' == discardPile)
    && (amount > |drawPile| ==> discardPile' == [Top(discardPile)])
  }

  /** The penalty of playCard: when `amount` is positive, seat `target`
      draws `amount` cards onto the end of its hand, as DrawPenalty draws
      them; otherwise nothing changes. */
  method DealPenalty(players: seq<Player>, target: nat, drawPile: seq<Card>, discardPile: seq<Card>,
                     amount: nat, pick: nat -> nat)
    returns (players': seq<Player>, drawPile': seq<Card>, discardPile': seq<Card>)
    requires target < |players| && |discardPile| >= 1
    ensures PenaltyDealt(players, target, drawPile, discardPile, amount, players', drawPile', discardPile')
    ensures |discardPile'| >= 1 && Top(discardPile') == Top(discardPile)
    ensures HeldCards(players') + multiset(drawPile') + multiset(discardPile') ==
            HeldCards(players) + multiset(drawPile) + multiset(discardPile)
  {
    if amount == 0 {
      assert players[target].hand[..|players[target].hand|] == players[target].hand;
      assert drawPile[..|drawPile| - 0] == drawPile;
      return players, drawPile, discardPile;
    }
    var targetPlayer := players[target];
    var drawn;
    drawn, drawPile', discardPile' := DrawPenalty(drawPile, discardPile, amount, pick);
    var punished := targetPlayer.(hand := targetPlayer.hand + drawn);
    HeldUpdate(players, target, punished);
    players' := players[target := punished];
    assert punished.hand[..|targetPlayer.hand|] == targetPlayer.hand;
    assert multiset(punished.hand) == multiset(targetPlayer.hand) + multiset(drawn);
    AddToBoth(multiset(targetPlayer.hand), multiset(drawn), multiset(drawPile'), multiset(discardPile'),
              multiset(drawPile), multiset(discardPile));
    Exchange(HeldCards(players), multiset(targetPlayer.hand), multiset(punished.hand),
             multiset(drawPile), multiset(drawPile'), multiset(discardPile), multiset(discardPile'));
  }

  /** Multiset bookkeeping of a play: `x` leaves the hands and `card` joins
      the discard pile. */
  lemma PlayBookkeeping<T>(m: multiset<T>, x: T, d: multiset<T>, c: multiset<T>, card: T)
    requires x in m
    ensures (m - multiset{x}) + d + (c + multiset{card}) == (m + d + c) - multiset{x} + multiset{card}
  {
    forall e
      ensures ((m - multiset{x}) + d + (c + multiset{card}))[e] == ((m + d + c) - multiset{x} + multiset{card})[e]
    {
    }
  }

  /** `drawCard`: seat `playerIndex` takes the last card of the draw pile,
      after refilling an empty draw pile from the discard pile minus its top
      card; with nothing to draw the turn simply passes. Either way the turn
      moves one seat on from the current player. */
  method DrawCard(state: GameState, playerIndex: int, pick: nat -> nat) returns (s': GameState)
    requires 0 <= playerIndex < |state.players|
    ensures |state.drawPile| == 0 && |state.discardPile| <= 1 ==>
              s' == state.(currentPlayerIndex := NextPlayerIndex(state))
    ensures |s'.players| == |state.players|
    ensures Valid(state) ==> Valid(s')
    ensures !(|state.drawPile| == 0 && |state.discardPile| <= 1) ==>
      var player, player' := state.players[playerIndex], s'.players[playerIndex];
      // Only the players, the piles and the turn change.
      && s' == state.(players := s'.players, drawPile := s'.drawPile, discardPile := s'.discardPile,
                      currentPlayerIndex := NextPlayerIndex(state))
      && (forall j :: 0 <= j < |state.players| && j != playerIndex ==> s'.players[j] == state.players[j])
      // The player gains one card and loses an UNO call.
      && |player'.hand| == |player.hand| + 1
      && player' == player.(hand := player.hand + [player'.hand[|player.hand|]], hasCalledUno := false)
      && AllCards(s') == AllCards(state)
      && (|state.drawPile| > 0 ==>
            && player'.hand[|player.hand|] == state.drawPile[|state.drawPile| - 1]
            && s'.drawPile == state.drawPile[..|state.drawPile| - 1]
            && s'.discardPile == state.discardPile)
      && (|state.drawPile| == 0 ==>
            && s'.discardPile == [Top(state.discardPile)]
            && |s'.drawPile| == |state.discardPile| - 2)
  {
    if |state.drawPile| == 0 && |state.discardPile| <= 1 {
      return state.(currentPlayerIndex := NextPlayerIndex(state));
    }
    var drawn, newDrawPile, newDiscardPile := DrawOne(state.drawPile, state.discardPile, pick);
    var drawnCard := drawn[0];
    var player := state.players[playerIndex];
    var newPlayer := player.(hand := player.hand + [drawnCard], hasCalledUno := false);
    assert drawn == [drawnCard];
    AddToBoth(multiset(player.hand), multiset(drawn), multiset(newDrawPile), multiset(newDiscardPile),
              multiset(state.drawPile), multiset(state.discardPile));
    MoveCards(state, playerIndex, newPlayer, newDrawPile, newDiscardPile);
    s' := state.(players := state.players[playerIndex := newPlayer], drawPile := newDrawPile,
                 discardPile := newDiscardPile, currentPlayerIndex := NextPlayerIndex(state));
  }

  // ---------------------------------------------------------------------
  // Setting up

  /** `playerNames[0] || 'You'`: a missing or empty name becomes "You". */
  function HumanName(playerNames: seq<string>): (name: string)
    ensures name != ""
    ensures |playerNames| > 0 && playerNames[0] != "" ==> name == playerNames[0]
  {
    if |playerNames| > 0 && playerNames[0] != "" then playerNames[0] else "You"
  }

  /** Who sits at seat `i` of a new game: the human at seat 0, named by
      `HumanName`, and `Bot i` with id `ai_i` after that; nobody has called
      UNO yet. */
  function SeatPlayer(playerNames: seq<string>, i: nat, hand: seq<Card>): Player
  {
    if i == 0 then Player("human", HumanName(playerNames), false, hand, false)
    else Player("ai_" + Decimal(i), "Bot " + Decimal(i), true, hand, false)
  }

  /** The seats initializeGame fills: the human and `aiCount` bots. */
  predicate Seated(players: seq<Player>, playerNames: seq<string>, aiCount: nat)
  {
    && |players| == 1 + aiCount
    && forall i :: 0 <= i < |players| ==> players[i] == SeatPlayer(playerNames, i, players[i].hand)
  }

  /** A game before its first move: seat 0 plays first, clockwise, under
      one face-up card that sets the colour, and nobody has won. */
  predicate Fresh(s: GameState)
  {
    && s.currentPlayerIndex == 0 && s.direction == 1 && s.winner == None && !s.gameOver
    && |s.discardPile| == 1 && s.discardPile[0].color == s.currentColor
  }

  /** The players initializeGame seats, with the dealt hands in order. */
  function SeatPlayers(playerNames: seq<string>, hands: seq<seq<Card>>): (players: seq<Player>)
    requires |hands| >= 1
    ensures Seated(players, playerNames, |hands| - 1)
    ensures forall i :: 0 <= i < |hands| ==> players[i].hand == hands[i]
  {
    seq(|hands|, i requires 0 <= i < |hands| => SeatPlayer(playerNames, i, hands[i]))
  }

  /** `initializeGame`: deal seven cards to the human and `aiCount` bots
      from a shuffled full deck, then turn up the first card of the rest
      that is not black. The source has no answer when that card does not
      exist (it reads a missing card, or starts on a black colour); `None`
      stands for that, and it cannot happen at tables of up to 14. */
  method InitializeGame(playerNames: seq<string>, aiCount: nat, pick: nat -> nat)
    returns (game: Option<GameState>)
    ensures aiCount <= 13 ==> game.Some?
    ensures game.Some? ==>
      var s := game.value;
      && Valid(s)
      && Seated(s.players, playerNames, aiCount)
      && Fresh(s)
      && AllCards(s) == multiset(FullDeck())
      && (aiCount <= 13 ==> (forall i :: 0 <= i <= aiCount ==> |s.players[i].hand| == 7)
                            && |s.drawPile| == 108 - 7 * (1 + aiCount) - 1)
  {
    var players, remainingDeck := DealTable(playerNames, aiCount, pick);
    game := TurnUpStarter(players, remainingDeck);
  }

  /** The dealing of initializeGame: a shuffled full deck, seven cards to
      each of the human and `aiCount` bots, and the cards left over. */
  method DealTable(playerNames: seq<string>, aiCount: nat, pick: nat -> nat)
    returns (players: seq<Player>, remainingDeck: seq<Card>)
    ensures Seated(players, playerNames, aiCount)
    ensures HeldCards(players) + multiset(remainingDeck) == multiset(FullDeck())
    ensures aiCount <= 13 ==>
              && (forall i :: 0 <= i <= aiCount ==> |players[i].hand| == 7)
              && |remainingDeck| == 108 - 7 * (1 + aiCount)
              && StarterIndex(remainingDeck).Some?
  {
    var deck := CreateDeck();
    var totalPlayers := 1 + aiCount;
    var hands, rest := DealCards(deck, totalPlayers, 7, pick);
    players := SeatPlayers(playerNames, hands);
    remainingDeck := rest;
    HeldCardsOfHands(players, hands);
    if aiCount <= 13 {
      NonBlackLeft(deck, hands, remainingDeck);
    }
  }

  /** The end of initializeGame: the first card of `rest` that is not
      black starts the discard pile and sets the colour; the others form
      the draw pile. With no such card there is no game. */
  method TurnUpStarter(players: seq<Player>, rest: seq<Card>) returns (game: Option<GameState>)
    ensures game.None? <==> StarterIndex(rest).None?
    ensures game.Some? ==>
      var s, i := game.value, StarterIndex(rest).value;
      && s.players == players
      && Fresh(s)
      && s.discardPile == [rest[i]]
      && s.drawPile == RemoveAt(rest, i)
      && AllCards(s) == HeldCards(players) + multiset(rest)
  {
    var found := StarterIndex(rest);
    if found.None? {
      return None;
    }
    var startingCardIndex := found.value;
    var startingCard := rest[startingCardIndex];
    var drawPile := RemoveAt(rest, startingCardIndex);
    AddToBoth(HeldCards(players), multiset{}, multiset(drawPile), multiset([startingCard]),
              multiset{}, multiset(rest));
    game := Some(GameState(players, 0, 1, drawPile, [startingCard], startingCard.color, None, false));
  }

  /** `remainingDeck.findIndex(c => c.color !== 'black')`: the first card of
      `rest` that is not wild. */
  function StarterIndex(rest: seq<Card>): (r: Option<nat>)
    ensures r.None? <==> forall k :: 0 <= k < |rest| ==> rest[k].color == Black
    ensures r.Some? ==> r.value < |rest| && rest[r.value].color != Black
    ensures r.Some? ==> forall k :: 0 <= k < r.value ==> rest[k].color == Black
  {
    IndexOf(rest, (c: Card) => c.color != Black)
  }

  /** After dealing at most 14 hands of seven, more cards remain than there
      are black cards in the whole deck, so a non-black one is among them. */
  lemma NonBlackLeft(deck: seq<Card>, hands: seq<seq<Card>>, rest: seq<Card>)
    requires deck == FullDeck()
    requires multiset(Flatten(hands) + rest) == multiset(deck)
    requires |rest| > 8
    ensures StarterIndex(rest).Some?
  {
    DeckBlackCount();
    CountPermutation(Flatten(hands) + rest, deck, IsBlack);
    CountConcat(Flatten(hands), rest, IsBlack);
    if forall k :: 0 <= k < |rest| ==> rest[k].color == Black {
      CountAll(rest, IsBlack);
      assert false;
    }
  }
}
