/** The deck of the UNO engine (src/lib/unoCards.ts): building the 108
    cards, shuffling, and dealing hands. */
module UnoDeck {
  import opened Seqs
  import opened UnoCards

  /** The id `card_<n>` that createDeck gives its n-th card. */
  function CardIdText(n: nat): string
  {
    "card_" + Decimal(n)
  }

  /** What is shown on a card: its colour and value, without the id. */
  datatype Face = Face(color: Color, value: Value)

  /** The colours in the order createDeck visits them. */
  const Colors: seq<CardColor> := [Red, Blue, Green, Yellow]

  /** The highest number on a card. */
  const MaxNumber: nat := 9

  /** How many rounds of one wild and one wild_draw4 card createDeck adds. */
  const WildRounds: nat := 4

  // ---------------------------------------------------------------------
  // The faces of the deck, in push order. Each function says what the
  // faces are after createDeck has pushed its part onto `faces`.

  /** Two of each number 1..n of one colour pushed onto `faces`. */
  function NumberFaces(faces: seq<Face>, color: CardColor, n: nat): (r: seq<Face>)
    requires n <= MaxNumber
    ensures |r| == |faces| + 2 * n
  {
    if n == 0 then faces
    else NumberFaces(faces, color, n - 1) + [Face(color, Number(n))] + [Face(color, Number(n))]
  }

  /** Two skip, two reverse and two draw2 faces of one colour pushed onto `faces`. */
  function ActionFaces(faces: seq<Face>, color: CardColor): (r: seq<Face>)
    ensures |r| == |faces| + 6
  {
    faces + [Face(color, Skip)] + [Face(color, Skip)] + [Face(color, Reverse)] + [Face(color, Reverse)]
          + [Face(color, Draw2)] + [Face(color, Draw2)]
  }

  /** The 25 faces of one colour pushed onto `faces`: one 0, two of each
      1..9, two skip, two reverse and two draw2. */
  function BlockFaces(faces: seq<Face>, color: CardColor): (r: seq<Face>)
    ensures |r| == |faces| + 25
  {
    ActionFaces(NumberFaces(faces + [Face(color, Number(0))], color, MaxNumber), color)
  }

  /** The blocks of `colors`, one after another. */
  function ColorFaces(colors: seq<CardColor>): (r: seq<Face>)
    ensures |r| == 25 * |colors|
  {
    if colors == [] then [] else BlockFaces(ColorFaces(colors[..|colors| - 1]), colors[|colors| - 1])
  }

  /** One more colour adds its block to the faces of the colours before it. */
  lemma ColorFacesStep(colors: seq<CardColor>, k: nat)
    requires k < |colors|
    ensures ColorFaces(colors[..k + 1]) == BlockFaces(ColorFaces(colors[..k]), colors[k])
  {
    assert colors[..k + 1][..k] == colors[..k];
  }

  /** `k` rounds of one wild and one wild_draw4 face pushed onto `faces`. */
  function WildFaces(faces: seq<Face>, k: nat): (r: seq<Face>)
    ensures |r| == |faces| + 2 * k
  {
    if k == 0 then faces else WildFaces(faces, k - 1) + [Face(Black, Wild)] + [Face(Black, WildDraw4)]
  }

  /** The faces of the deck createDeck returns: a block per colour, then
      the wild rounds. */
  function DeckFaces(): seq<Face>
  {
    WildFaces(ColorFaces(Colors), WildRounds)
  }

  // ---------------------------------------------------------------------
  // Ids

  /** The cards with faces `faces` whose ids count on from `first`, as a
      running counter hands them out. */
  function Label(faces: seq<Face>, first: nat): (r: seq<Card>)
    ensures |r| == |faces|
    ensures forall i :: 0 <= i < |r| ==>
              r[i] == Card(CardIdText(first + i), faces[i].color, faces[i].value)
  {
    seq(|faces|, i requires 0 <= i < |faces| => Card(CardIdText(first + i), faces[i].color, faces[i].value))
  }

  /** Labelled cards carry pairwise different ids. */
  lemma LabelIdsDistinct(faces: seq<Face>, first: nat)
    ensures forall i, j :: 0 <= i < j < |faces| ==> Label(faces, first)[i].id != Label(faces, first)[j].id
  {
    var d := Label(faces, first);
    forall i, j | 0 <= i < j < |faces| ensures d[i].id != d[j].id {
      if d[i].id == d[j].id {
        assert CardIdText(first + i)[5..] == Decimal(first + i);
        assert CardIdText(first + j)[5..] == Decimal(first + j);
        DecimalInjective(first + i, first + j);
      }
    }
  }

  /** The deck createDeck returns, card by card: card i is `card_<i>`. */
  function FullDeck(): (deck: seq<Card>)
    ensures |deck| == 108
    ensures forall i :: 0 <= i < |deck| ==> deck[i].id == CardIdText(i)
  {
    Label(DeckFaces(), 0)
  }

  /** One `deck.push({ id: `card_${cardId++}`, color, value })` of
      createDeck: the card gets the next id and the counter moves on. While
      the pushed faces are `faces`, the deck is their labelling. */
  method PushCard(deck: seq<Card>, cardId: nat, color: Color, value: Value, ghost faces: seq<Face>)
    returns (deck': seq<Card>, cardId': nat, ghost faces': seq<Face>)
    requires deck == Label(faces, 0) && cardId == |faces|
    ensures deck' == deck + [Card(CardIdText(cardId), color, value)] && cardId' == cardId + 1
    ensures faces' == faces + [Face(color, value)]
    ensures deck' == Label(faces', 0) && cardId' == |faces'|
  {
    deck' := deck + [Card(CardIdText(cardId), color, value)];
    cardId' := cardId + 1;
    faces' := faces + [Face(color, value)];
  }

  /** `createDeck`: the 108 cards, in push order, with a running id counter. */
  method CreateDeck() returns (deck: seq<Card>)
    ensures deck == FullDeck()
  {
    deck := [];
    var cardId := 0;
    ghost var faces: seq<Face> := [];
    for ci := 0 to |Colors|
      invariant faces == ColorFaces(Colors[..ci])
      invariant deck == Label(faces, 0) && cardId == |faces|
    {
      var color := Colors[ci];
      ghost var before := faces;
      deck, cardId, faces := PushCard(deck, cardId, color, Number(0), faces);
      for num := 1 to MaxNumber + 1
        invariant faces == NumberFaces(before + [Face(color, Number(0))], color, num - 1)
        invariant deck == Label(faces, 0) && cardId == |faces|
      {
        deck, cardId, faces := PushCard(deck, cardId, color, Number(num), faces);
        deck, cardId, faces := PushCard(deck, cardId, color, Number(num), faces);
      }
      ghost var numbered := faces;
      deck, cardId, faces := PushCard(deck, cardId, color, Skip, faces);
      deck, cardId, faces := PushCard(deck, cardId, color, Skip, faces);
      deck, cardId, faces := PushCard(deck, cardId, color, Reverse, faces);
      deck, cardId, faces := PushCard(deck, cardId, color, Reverse, faces);
      deck, cardId, faces := PushCard(deck, cardId, color, Draw2, faces);
      deck, cardId, faces := PushCard(deck, cardId, color, Draw2, faces);
      assert faces == ActionFaces(numbered, color);
      assert faces == BlockFaces(before, color);
      ColorFacesStep(Colors, ci);
    }
    assert Colors[..|Colors|] == Colors;
    ghost var blocks := faces;
    for i := 0 to WildRounds
      invariant faces == WildFaces(blocks, i)
      invariant deck == Label(faces, 0) && cardId == |faces|
    {
      deck, cardId, faces := PushCard(deck, cardId, Black, Wild, faces);
      deck, cardId, faces := PushCard(deck, cardId, Black, WildDraw4, faces);
    }
  }

  /** The deck has 108 cards, the i-th is called `card_<i>`, and no two
      cards share an id. */
  lemma DeckIds()
    ensures |FullDeck()| == 108
    ensures forall i :: 0 <= i < |FullDeck()| ==> FullDeck()[i].id == CardIdText(i)
    ensures forall i, j :: 0 <= i < j < |FullDeck()| ==> FullDeck()[i].id != FullDeck()[j].id
  {
    LabelIdsDistinct(DeckFaces(), 0);
  }

  // ---------------------------------------------------------------------
  // Composition of the deck

  /** How many cards of `s` have this face. */
  function FaceCount(s: seq<Card>, face: Face): nat
  {
    Count(s, (c: Card) => c.color == face.color && c.value == face.value)
  }

  /** How many faces of `s` equal `face`. */
  function Occurrences(s: seq<Face>, face: Face): nat
  {
    Count(s, (f: Face) => f == face)
  }

  /** How many copies of each face a full UNO deck holds. */
  function Copies(face: Face): nat
  {
    if face.color == Black then (if face.value == Wild || face.value == WildDraw4 then 4 else 0)
    else match face.value
      case Number(n) => if n == 0 then 1 else 2
      case Skip => 2
      case Reverse => 2
      case Draw2 => 2
      case Wild => 0
      case WildDraw4 => 0
  }

  lemma OccurrencesPush(faces: seq<Face>, f: Face, face: Face)
    ensures Occurrences(faces + [f], face) == Occurrences(faces, face) + if f == face then 1 else 0
  {
    CountPush(faces, f, (g: Face) => g == face);
  }

  /** Labelling does not change how often a face occurs. */
  lemma FaceCountLabel(faces: seq<Face>, first: nat, face: Face)
    ensures FaceCount(Label(faces, first), face) == Occurrences(faces, face)
  {
    CountMapped(Label(faces, first), faces, (c: Card) => c.color == face.color && c.value == face.value, (f: Face) => f == face);
  }

  lemma {:induction false} OccurrencesNumberFaces(faces: seq<Face>, color: CardColor, n: nat, face: Face)
    requires n <= MaxNumber
    ensures Occurrences(NumberFaces(faces, color, n), face) == Occurrences(faces, face) +
            if face.color == color && face.value.Number? && 1 <= face.value.n <= n then 2 else 0
  {
    if n > 0 {
      var f, before := Face(color, Number(n)), NumberFaces(faces, color, n - 1);
      OccurrencesNumberFaces(faces, color, n - 1, face);
      OccurrencesPush(before, f, face);
      OccurrencesPush(before + [f], f, face);
    }
  }

  lemma OccurrencesActionFaces(faces: seq<Face>, color: CardColor, face: Face)
    ensures Occurrences(ActionFaces(faces, color), face) == Occurrences(faces, face) +
            if face.color == color && face.value in {Skip, Reverse, Draw2} then 2 else 0
  {
    var s, r, d := Face(color, Skip), Face(color, Reverse), Face(color, Draw2);
    OccurrencesPush(faces, s, face);
    OccurrencesPush(faces + [s], s, face);
    OccurrencesPush(faces + [s] + [s], r, face);
    OccurrencesPush(faces + [s] + [s] + [r], r, face);
    OccurrencesPush(faces + [s] + [s] + [r] + [r], d, face);
    OccurrencesPush(faces + [s] + [s] + [r] + [r] + [d], d, face);
  }

  lemma OccurrencesBlockFaces(faces: seq<Face>, c: CardColor, face: Face)
    ensures Occurrences(BlockFaces(faces, c), face) == Occurrences(faces, face) +
            if face.color == c then Copies(face) else 0
  {
    var zero := Face(c, Number(0));
    OccurrencesPush(faces, zero, face);
    OccurrencesNumberFaces(faces + [zero], c, MaxNumber, face);
    OccurrencesActionFaces(NumberFaces(faces + [zero], c, MaxNumber), c, face);
  }

  /** No colour occurs twice in `colors`. */
  predicate Distinct(colors: seq<CardColor>)
  {
    forall i, j :: 0 <= i < j < |colors| ==> colors[i] != colors[j]
  }

  lemma {:induction false} OccurrencesColorFaces(colors: seq<CardColor>, face: Face)
    requires Distinct(colors)
    ensures Occurrences(ColorFaces(colors), face) == if face.color in colors then Copies(face) else 0
  {
    if colors != [] {
      var k := |colors| - 1;
      assert colors == colors[..k] + [colors[k]];
      OccurrencesColorFaces(colors[..k], face);
      OccurrencesBlockFaces(ColorFaces(colors[..k]), colors[k], face);
    }
  }

  lemma {:induction false} OccurrencesWildFaces(faces: seq<Face>, k: nat, face: Face)
    ensures Occurrences(WildFaces(faces, k), face) == Occurrences(faces, face) +
            if face.color == Black && (face.value == Wild || face.value == WildDraw4) then k else 0
  {
    if k > 0 {
      var before := WildFaces(faces, k - 1);
      OccurrencesWildFaces(faces, k - 1, face);
      OccurrencesPush(before, Face(Black, Wild), face);
      OccurrencesPush(before + [Face(Black, Wild)], Face(Black, WildDraw4), face);
    }
  }

  /** Colour blocks for distinct colours followed by wild rounds. */
  lemma OccurrencesDeckShape(colors: seq<CardColor>, rounds: nat, face: Face)
    requires Distinct(colors)
    ensures Occurrences(WildFaces(ColorFaces(colors), rounds), face) ==
            if face.color == Black then (if face.value == Wild || face.value == WildDraw4 then rounds else 0)
            else if face.color in colors then Copies(face) else 0
  {
    OccurrencesWildFaces(ColorFaces(colors), rounds, face);
    OccurrencesColorFaces(colors, face);
  }

  /** createDeck visits every colour a player can name, each once. */
  lemma AllColors()
    ensures Distinct(Colors)
    ensures forall c: CardColor :: c in Colors
  {
    forall c: CardColor ensures c in Colors {
      match c
      case Red => assert Colors[0] == c;
      case Blue => assert Colors[1] == c;
      case Green => assert Colors[2] == c;
      case Yellow => assert Colors[3] == c;
    }
  }

  /** Each of the 4 colours has one 0 and two of each other coloured value;
      there are 4 wild and 4 wild_draw4 cards; nothing else. */
  lemma DeckComposition(face: Face)
    ensures FaceCount(FullDeck(), face) == Copies(face)
  {
    AllColors();
    FaceCountLabel(DeckFaces(), 0, face);
    OccurrencesDeckShape(Colors, WildRounds, face);
  }

  predicate IsBlack(card: Card)
  {
    card.color == Black
  }

  /** The number of wild (black) cards in `s`. */
  function BlackCount(s: seq<Card>): nat
  {
    Count(s, IsBlack)
  }

  predicate IsBlackFace(f: Face)
  {
    f.color == Black
  }

  lemma {:induction false} BlackNumberFaces(faces: seq<Face>, color: CardColor, n: nat)
    requires n <= MaxNumber
    ensures Count(NumberFaces(faces, color, n), IsBlackFace) == Count(faces, IsBlackFace)
  {
    if n > 0 {
      var f, before := Face(color, Number(n)), NumberFaces(faces, color, n - 1);
      BlackNumberFaces(faces, color, n - 1);
      CountPush(before, f, IsBlackFace);
      CountPush(before + [f], f, IsBlackFace);
    }
  }

  lemma BlackBlockFaces(faces: seq<Face>, c: CardColor)
    ensures Count(BlockFaces(faces, c), IsBlackFace) == Count(faces, IsBlackFace)
  {
    var zero := Face(c, Number(0));
    var numbered := NumberFaces(faces + [zero], c, MaxNumber);
    var s, r, d := Face(c, Skip), Face(c, Reverse), Face(c, Draw2);
    CountPush(faces, zero, IsBlackFace);
    BlackNumberFaces(faces + [zero], c, MaxNumber);
    CountPush(numbered, s, IsBlackFace);
    CountPush(numbered + [s], s, IsBlackFace);
    CountPush(numbered + [s] + [s], r, IsBlackFace);
    CountPush(numbered + [s] + [s] + [r], r, IsBlackFace);
    CountPush(numbered + [s] + [s] + [r] + [r], d, IsBlackFace);
    CountPush(numbered + [s] + [s] + [r] + [r] + [d], d, IsBlackFace);
  }

  lemma {:induction false} BlackColorFaces(colors: seq<CardColor>)
    ensures Count(ColorFaces(colors), IsBlackFace) == 0
  {
    if colors != [] {
      var k := |colors| - 1;
      BlackColorFaces(colors[..k]);
      BlackBlockFaces(ColorFaces(colors[..k]), colors[k]);
    }
  }

  lemma {:induction false} BlackWildFaces(faces: seq<Face>, k: nat)
    ensures Count(WildFaces(faces, k), IsBlackFace) == Count(faces, IsBlackFace) + 2 * k
  {
    if k > 0 {
      var before := WildFaces(faces, k - 1);
      BlackWildFaces(faces, k - 1);
      CountPush(before, Face(Black, Wild), IsBlackFace);
      CountPush(before + [Face(Black, Wild)], Face(Black, WildDraw4), IsBlackFace);
    }
  }

  /** Colour blocks followed by wild rounds hold two black faces per round. */
  lemma BlackDeckShape(colors: seq<CardColor>, rounds: nat)
    ensures Count(WildFaces(ColorFaces(colors), rounds), IsBlackFace) == 2 * rounds
  {
    BlackColorFaces(colors);
    BlackWildFaces(ColorFaces(colors), rounds);
  }

  /** A full deck holds exactly 8 black cards. */
  lemma DeckBlackCount()
    ensures BlackCount(FullDeck()) == 8
  {
    CountMapped(FullDeck(), DeckFaces(), IsBlack, IsBlackFace);
    BlackDeckShape(Colors, WildRounds);
  }

  // ---------------------------------------------------------------------
  // Shuffling and dealing

  /** `shuffle`: Fisher-Yates on a copy of `a`. `Math.random` is replaced
      by `pick`: at step `i` the swap partner is `pick(i) % (i + 1)`, which
      is what `Math.floor(Math.random() * (i + 1))` can return. The result is
      a permutation of `a`, and `a` itself is a value and is not touched. */
  method Shuffle<T>(a: seq<T>, pick: nat -> nat) returns (r: seq<T>)
    ensures |r| == |a|
    ensures multiset(r) == multiset(a)
  {
    var shuffled := new T[|a|](k requires 0 <= k < |a| => a[k]);
    assert shuffled[..] == a;
    var i := shuffled.Length - 1;
    while i > 0
      invariant i < shuffled.Length
      invariant multiset(shuffled[..]) == multiset(a)
    {
      var j := pick(i) % (i + 1);
      shuffled[i], shuffled[j] := shuffled[j], shuffled[i];
      i := i - 1;
    }
    r := shuffled[..];
  }

  /** Dealing to player `i` of `n` takes the cards from `i * c` to
      `(i + 1) * c`, which lie within `n * c`. */
  lemma NextRoundFits(i: nat, n: nat, c: nat)
    requires i < n
    ensures (i + 1) * c == i * c + c
    ensures (i + 1) * c <= n * c
  {
    assert n * c == (i + 1) * c + (n - i - 1) * c;
  }

  /** `dealCards`: shuffle `deck`, then take `cardsPerPlayer` cards from its
      front for each player in turn (fewer once it runs out). */
  method DealCards(deck: seq<Card>, numPlayers: nat, cardsPerPlayer: nat, pick: nat -> nat)
    returns (hands: seq<seq<Card>>, remainingDeck: seq<Card>)
    ensures |hands| == numPlayers
    ensures multiset(Flatten(hands) + remainingDeck) == multiset(deck)
    ensures forall i :: 0 <= i < numPlayers ==> |hands[i]| <= cardsPerPlayer
    ensures numPlayers * cardsPerPlayer <= |deck| ==>
              (forall i :: 0 <= i < numPlayers ==> |hands[i]| == cardsPerPlayer)
              && |remainingDeck| == |deck| - numPlayers * cardsPerPlayer
    // A deck that runs short gives each player what is left, in turn.
    ensures forall i :: 0 <= i < numPlayers ==>
              |hands[i]| == Min(cardsPerPlayer, |deck| - Min(|deck|, i * cardsPerPlayer))
    ensures |remainingDeck| == |deck| - Min(|deck|, numPlayers * cardsPerPlayer)
  {
    var shuffledDeck := Shuffle(deck, pick);
    ghost var full := shuffledDeck;
    ghost var enough := numPlayers * cardsPerPlayer <= |deck|;
    hands := [];
    for i := 0 to numPlayers
      invariant |hands| == i
      invariant Flatten(hands) + shuffledDeck == full
      invariant forall k :: 0 <= k < i ==> |hands[k]| <= cardsPerPlayer
      invariant enough ==> (forall k :: 0 <= k < i ==> |hands[k]| == cardsPerPlayer)
                           && |shuffledDeck| == |deck| - i * cardsPerPlayer
      invariant |shuffledDeck| == |deck| - Min(|deck|, i * cardsPerPlayer)
      invariant forall k :: 0 <= k < i ==> |hands[k]| == Min(cardsPerPlayer, |deck| - Min(|deck|, k * cardsPerPlayer))
    {
      NextRoundFits(i, numPlayers, cardsPerPlayer);
      var take := Min(cardsPerPlayer, |shuffledDeck|);
      assert shuffledDeck == shuffledDeck[..take] + shuffledDeck[take..];
      assert (hands + [shuffledDeck[..take]])[..i] == hands;
      hands := hands + [shuffledDeck[..take]];
      shuffledDeck := shuffledDeck[take..];
    }
    remainingDeck := shuffledDeck;
  }
}
