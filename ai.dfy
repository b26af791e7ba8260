/** The move the computer player makes (getAIMove in src/lib/unoCards.ts):
    draw when nothing can be played; otherwise play a number card, else an
    action card, else a wild card, and name the colour the hand holds most
    of when the card is wild. */
module UnoAi {
  import opened Seqs
  import opened UnoCards
  import opened UnoGame

  datatype AiMove = Draw | Play(card: Card, chosenColor: Option<CardColor>)

  /** skip, reverse and draw2: the values getAIMove calls special. */
  predicate IsAction(c: Card)
  {
    c.value == Skip || c.value == Reverse || c.value == Draw2
  }

  /** `c => c.color !== 'black'`. */
  predicate NonWild(c: Card)
  {
    c.color != Black
  }

  /** Not special: a number card among the non-wild cards it is applied
      to (a wild card also passes). */
  predicate IsNumberCard(c: Card)
  {
    !IsAction(c)
  }

  /** The playable cards that are not wild. */
  function NonWildOn(top: Card, color: CardColor): Card -> bool
  {
    c => CanPlayCard(c, top, color) && NonWild(c)
  }

  /** The playable cards of tier `t`. */
  function TierOn(top: Card, color: CardColor, t: nat): Card -> bool
  {
    c => CanPlayCard(c, top, color) && Tier(c) == t
  }

  /** How much the computer player prefers to keep a card: number cards
      (tier 0) go first, then action cards (tier 1), then wild cards (tier 2). */
  function Tier(c: Card): nat
  {
    if c.color == Black then 2 else if IsAction(c) then 1 else 0
  }

  // ---------------------------------------------------------------------
  // The colour named for a wild card

  /** The keys of `colorCounts`, in the order Object.entries lists them. */
  const CountKeys: seq<CardColor> := [Red, Blue, Green, Yellow]

  /** How many cards of `hand` have colour `color`. */
  function ColorCount(hand: seq<Card>, color: CardColor): nat
  {
    Count(hand, (c: Card) => c.color == color)
  }

  /** The `forEach` of getAIMove: one counter per colour, raised for every
      card of the hand that is not black. */
  method CountColors(hand: seq<Card>) returns (counts: map<CardColor, nat>)
    ensures forall color: CardColor :: color in counts && counts[color] == ColorCount(hand, color)
  {
    counts := map[Red := 0, Blue := 0, Green := 0, Yellow := 0];
    for i := 0 to |hand|
      invariant forall color: CardColor :: color in counts && counts[color] == ColorCount(hand[..i], color)
    {
      var c := hand[i];
      assert hand[..i + 1] == hand[..i] + [c];
      forall color: CardColor
        ensures ColorCount(hand[..i + 1], color) == ColorCount(hand[..i], color) + if c.color == color then 1 else 0
      {
        CountPush(hand[..i], c, (d: Card) => d.color == color);
      }
      if c.color != Black {
        counts := counts[c.color := counts[c.color] + 1];
      }
    }
    assert hand[..|hand|] == hand;
  }

  /** Where the entry that a stable sort by descending count puts first
      stood: the earliest entry with the largest count. */
  function LeaderIndex(entries: seq<(CardColor, nat)>): (i: nat)
    requires |entries| >= 1
    ensures i < |entries|
    ensures forall k :: 0 <= k < |entries| ==> entries[k].1 <= entries[i].1
    ensures forall k :: 0 <= k < i ==> entries[k].1 < entries[i].1
  {
    if |entries| == 1 then 0
    else
      var j := 1 + LeaderIndex(entries[1..]);
      if entries[0].1 >= entries[j].1 then 0 else j
  }

  /** `Object.entries(colorCounts).sort((a, b) => b[1] - a[1])[0][0]`. */
  function MostCommonColor(counts: map<CardColor, nat>): (color: CardColor)
    requires forall c: CardColor :: c in counts
    // The colour named has the largest count, and every colour listed
    // before it has a smaller one.
    ensures forall c: CardColor :: counts[c] <= counts[color]
    ensures forall k :: 0 <= k < |CountKeys| && CountKeys[k] == color ==>
              forall j :: 0 <= j < k ==> counts[CountKeys[j]] < counts[CountKeys[k]]
  {
    var entries := [(Red, counts[Red]), (Blue, counts[Blue]), (Green, counts[Green]), (Yellow, counts[Yellow])];
    var i := LeaderIndex(entries);
    assert forall k :: 0 <= k < 4 ==> entries[k] == (CountKeys[k], counts[CountKeys[k]]);
    assert forall c: CardColor :: counts[c] <= entries[i].1 by {
      forall c: CardColor
        ensures counts[c] <= entries[i].1
      {
        var k := if c == Red then 0 else if c == Blue then 1 else if c == Green then 2 else 3;
        assert entries[k].1 == counts[c];
      }
    }
    entries[i].0
  }

  /** `color` is held at least as often as any other colour, and more
      often than every colour listed before it. */
  ghost predicate MostCommonIn(hand: seq<Card>, color: CardColor)
  {
    && (forall c: CardColor :: ColorCount(hand, c) <= ColorCount(hand, color))
    && (forall k :: 0 <= k < |CountKeys| && CountKeys[k] == color ==>
          forall j :: 0 <= j < k ==> ColorCount(hand, CountKeys[j]) < ColorCount(hand, CountKeys[k]))
  }

  /** The colour getAIMove names for a wild card: the counts of the hand,
      sorted by descending count, and the first key. */
  method ChooseColor(hand: seq<Card>) returns (color: CardColor)
    ensures MostCommonIn(hand, color)
  {
    var counts := CountColors(hand);
    color := MostCommonColor(counts);
  }

  // ---------------------------------------------------------------------
  // The move

  /** `getAIMove`: the move of seat `playerIndex`. */
  method GetAiMove(state: GameState, playerIndex: int) returns (move: AiMove)
    requires 0 <= playerIndex < |state.players| && |state.discardPile| >= 1
    ensures var hand, top, color := state.players[playerIndex].hand, Top(state.discardPile), state.currentColor;
      // Draw exactly when no card of the hand can be played.
      && (move.Draw? <==> forall k :: 0 <= k < |hand| ==> !CanPlayCard(hand[k], top, color))
      // Otherwise the card is playable, and no playable card of a lower
      // tier, or of the same tier and earlier in the hand, is passed over.
      && (move.Play? ==> FirstOfLowestTier(hand, top, color, move.card))
      // A colour is named exactly for a wild card: the one the hand holds most of.
      && (move.Play? ==> (move.chosenColor.Some? <==> move.card.color == Black))
      && (move.Play? && move.card.color == Black ==> MostCommonIn(hand, move.chosenColor.value))
  {
    var player := state.players[playerIndex];
    var topCard := Top(state.discardPile);
    var playableCards := PlayableCards(player.hand, topCard, state.currentColor);

    if |playableCards| == 0 {
      NoneKept(player.hand, CanPlayOn(topCard, state.currentColor));
      return Draw;
    }

    var nonWildCards := Filter(playableCards, NonWild);
    var specialCards := Filter(nonWildCards, IsAction);
    var numberCards := Filter(nonWildCards, IsNumberCard);

    var cardToPlay: Card;
    if |numberCards| > 0 {
      cardToPlay := numberCards[0];
    } else if |specialCards| > 0 {
      cardToPlay := specialCards[0];
    } else {
      cardToPlay := playableCards[0];
    }
    PicksFirstOfLowestTier(player.hand, topCard, state.currentColor);

    var chosenColor: Option<CardColor> := None;
    if cardToPlay.color == Black {
      var mostCommon := ChooseColor(player.hand);
      chosenColor := Some(mostCommon);
    }
    move := Play(cardToPlay, chosenColor);
  }

  /** `card`, found at index `i` of `hand`, is playable, and every playable
      card has a higher tier, or the same tier and an index no lower. */
  ghost predicate FirstOfLowestTier(hand: seq<Card>, top: Card, color: CardColor, card: Card)
  {
    exists i :: 0 <= i < |hand| && hand[i] == card && CanPlayCard(card, top, color)
      && forall k :: 0 <= k < |hand| && CanPlayCard(hand[k], top, color) ==>
           Tier(card) < Tier(hand[k]) || (Tier(card) == Tier(hand[k]) && i <= k)
  }

  /** The filters of getAIMove select the playable cards of tiers 0 and 1. */
  lemma TierFilters(hand: seq<Card>, top: Card, color: CardColor)
    ensures var nonWild := Filter(PlayableCards(hand, top, color), NonWild);
      && Filter(nonWild, IsNumberCard) == Filter(hand, TierOn(top, color, 0))
      && Filter(nonWild, IsAction) == Filter(hand, TierOn(top, color, 1))
  {
    FilterFilter(hand, CanPlayOn(top, color), NonWild, NonWildOn(top, color));
    FilterFilter(hand, NonWildOn(top, color), IsNumberCard, TierOn(top, color, 0));
    FilterFilter(hand, NonWildOn(top, color), IsAction, TierOn(top, color, 1));
  }

  /** The card the filters of getAIMove pick is the first playable card of
      the lowest tier the hand holds. */
  lemma PicksFirstOfLowestTier(hand: seq<Card>, top: Card, color: CardColor)
    requires |PlayableCards(hand, top, color)| > 0
    ensures var playable := PlayableCards(hand, top, color);
      var nonWild := Filter(playable, NonWild);
      var special := Filter(nonWild, IsAction);
      var number := Filter(nonWild, IsNumberCard);
      FirstOfLowestTier(hand, top, color,
                        if |number| > 0 then number[0] else if |special| > 0 then special[0] else playable[0])
  {
    var tier0, tier1 := TierOn(top, color, 0), TierOn(top, color, 1);
    TierFilters(hand, top, color);
    if |Filter(hand, tier0)| > 0 {
      FirstOfTier(hand, top, color, tier0, 0);
    } else {
      NoneKept(hand, tier0);
      if |Filter(hand, tier1)| > 0 {
        FirstOfTier(hand, top, color, tier1, 1);
      } else {
        NoneKept(hand, tier1);
        FirstOfTier(hand, top, color, CanPlayOn(top, color), 2);
      }
    }
  }

  /** When `p` picks out the playable cards of tier `t` and none lower is
      playable, the first card `p` keeps is the first of the lowest tier. */
  lemma FirstOfTier(hand: seq<Card>, top: Card, color: CardColor, p: Card -> bool, t: nat)
    requires |Filter(hand, p)| > 0
    requires forall k :: 0 <= k < |hand| ==> (p(hand[k]) <==> CanPlayCard(hand[k], top, color) && Tier(hand[k]) == t)
    requires forall k :: 0 <= k < |hand| && CanPlayCard(hand[k], top, color) ==> Tier(hand[k]) >= t
    ensures FirstOfLowestTier(hand, top, color, Filter(hand, p)[0])
  {
    FilterFirst(hand, p);
    var i := IndexOf(hand, p).value;
    forall k | 0 <= k < |hand| && CanPlayCard(hand[k], top, color)
      ensures Tier(hand[i]) < Tier(hand[k]) || (Tier(hand[i]) == Tier(hand[k]) && i <= k)
    {
    }
    assert hand[i] == Filter(hand, p)[0];
  }
}
