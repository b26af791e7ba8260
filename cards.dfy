/** Cards of the UNO engine (src/lib/unoCards.ts): colours, values, the
    legality rule of a play and the text shown on a card's face. */
module UnoCards {
  import opened Seqs

  /** The values of a card's `color` field; `Black` marks the wild cards. */
  datatype Color = Red | Blue | Green | Yellow | Black

  /** `CardColor`: a colour a player can name and the table can be in. */
  type CardColor = c: Color | c != Black witness Red

  type Digit = n: nat | n <= 9

  /** `CardValue | WildCardValue`: '0'..'9', 'skip', 'reverse', 'draw2',
      'wild' and 'wild_draw4'. */
  datatype Value = Number(n: Digit) | Skip | Reverse | Draw2 | Wild | WildDraw4

  datatype Card = Card(id: string, color: Color, value: Value)

  /** The character of one decimal digit. */
  function DigitChar(d: Digit): char
  {
    ('0' as int + d) as char
  }

  /** `n.toString()` for a natural number: its decimal digits, most
      significant first, without leading zeros. */
  function Decimal(n: nat): (s: string)
    ensures |s| >= 1
    ensures n < 10 <==> |s| == 1
    ensures forall i :: 0 <= i < |s| ==> '0' <= s[i] <= '9'
  {
    if n < 10 then [DigitChar(n)] else Decimal(n / 10) + [DigitChar(n % 10)]
  }

  /** Different numbers have different decimal texts. */
  lemma {:induction false} DecimalInjective(a: nat, b: nat)
    requires Decimal(a) == Decimal(b)
    ensures a == b
  {
    if a >= 10 && b >= 10 {
      var da, db := Decimal(a), Decimal(b);
      assert da[..|da| - 1] == Decimal(a / 10);
      assert db[..|db| - 1] == Decimal(b / 10);
      assert DigitChar(a % 10) == da[|da| - 1] == db[|db| - 1] == DigitChar(b % 10);
      DecimalInjective(a / 10, b / 10);
    } else if a < 10 && b < 10 {
      assert Decimal(a)[0] == DigitChar(a) && Decimal(b)[0] == DigitChar(b);
    }
  }

  /** `canPlayCard`: whether `card` may be laid on `topCard` while the table
      colour is `currentColor`. Wild cards always may; otherwise the colour
      must match, or the value must match a top card that is not wild. */
  function CanPlayCard(card: Card, topCard: Card, currentColor: CardColor): (ok: bool)
    ensures ok <==> (|| card.color == Black
                     || card.color == currentColor
                     || (topCard.color != Black && card.value == topCard.value))
  {
    if card.color == Black then true
    else if card.color == currentColor then true
    else if topCard.color != Black && card.value == topCard.value then true
    else false
  }

  /** On a wild top card only the named colour (or another wild card) can
      follow: the value shown on the wild card is never matched. */
  lemma PlayOnWild(card: Card, topCard: Card, currentColor: CardColor)
    requires topCard.color == Black
    ensures CanPlayCard(card, topCard, currentColor) <==> card.color in {Black, currentColor}
  {
  }

  /** `c => canPlayCard(c, topCard, currentColor)`. */
  function CanPlayOn(topCard: Card, currentColor: CardColor): Card -> bool
  {
    c => CanPlayCard(c, topCard, currentColor)
  }

  /** `getPlayableCards`: the cards of `hand` that can be played, in hand
      order. */
  function PlayableCards(hand: seq<Card>, topCard: Card, currentColor: CardColor): (r: seq<Card>)
    ensures forall c :: c in r <==> c in hand && CanPlayCard(c, topCard, currentColor)
    ensures forall c :: multiset(r)[c] ==
                        (if CanPlayCard(c, topCard, currentColor) then multiset(hand)[c] else 0)
  {
    FilterElements(hand, CanPlayOn(topCard, currentColor));
    Filter(hand, CanPlayOn(topCard, currentColor))
  }

  /** The playable cards keep the hand order: those of a split hand are
      the playable cards of the first part followed by those of the second,
      and a single card is kept exactly when it can be played. */
  lemma PlayableCardsInOrder(a: seq<Card>, b: seq<Card>, c: Card, topCard: Card, currentColor: CardColor)
    ensures PlayableCards(a + b, topCard, currentColor) ==
            PlayableCards(a, topCard, currentColor) + PlayableCards(b, topCard, currentColor)
    ensures PlayableCards([c], topCard, currentColor) == if CanPlayCard(c, topCard, currentColor) then [c] else []
  {
    FilterConcat(a, b, CanPlayOn(topCard, currentColor));
  }

  /** `getCardDisplayValue`: the symbol shown on a card. */
  function CardDisplayValue(card: Card): (shown: string)
    ensures shown != ""
    // Numbers are shown as their digits; no other value is shown as digits only.
    ensures card.value.Number? <==> forall i :: 0 <= i < |shown| ==> '0' <= shown[i] <= '9'
  {
    match card.value
    case Skip => assert "⊘"[0] == '⊘'; "⊘"
    case Reverse => assert "⟳"[0] == '⟳'; "⟳"
    case Draw2 => assert "+2"[0] == '+'; "+2"
    case Wild => assert "★"[0] == '★'; "★"
    case WildDraw4 => assert "+4"[0] == '+'; "+4"
    case Number(n) => Decimal(n)
  }

  /** No two card values share a face symbol. */
  lemma DisplayValueInjective(a: Card, b: Card)
    requires CardDisplayValue(a) == CardDisplayValue(b)
    ensures a.value == b.value
  {
    if a.value.Number? && b.value.Number? {
      DecimalInjective(a.value.n, b.value.n);
    }
  }
}
