/** The cards of the game (Card.java), the three-card tuple used for the
    case file, suggestions and accusations (CardTuple.java), and the two pure
    card lookups of Game.java that the players also use: finding a card by
    name and comparing an accusation with the case file. */
module Cards {
  import opened Util

  // ---------------------------------------------------------------- Card.java

  datatype CardType = CHARACTER | WEAPON | ROOM

  /** A card is an immutable name/type pair: `getName` and `getType` are the
      two fields, and nothing can change them after construction. */
  datatype Card = Card(name: string, kind: CardType)

  /** The text Java prints for an enum constant. */
  function TypeName(t: CardType): string
  {
    match t
    case CHARACTER => "CHARACTER"
    case WEAPON => "WEAPON"
    case ROOM => "ROOM"
  }

  /** Card.toString: the name follows a fixed six-character prefix and is
      followed by the type, so both can be read back from the text. */
  function CardText(c: Card): (s: string)
    ensures |s| == 14 + |c.name| + |TypeName(c.kind)|
    ensures s[..6] == "name: " && s[6..6 + |c.name|] == c.name
    ensures s[6 + |c.name|..] == ", type: " + TypeName(c.kind)
  {
    "name: " + c.name + ", type: " + TypeName(c.kind)
  }

  // ----------------------------------------------------------- CardTuple.java

  /** A constructed tuple: one card in each slot. */
  datatype CardTuple = CardTuple(characterCard: Card, weaponCard: Card, roomCard: Card)

  /** The three private fields of a tuple under construction; None is null. */
  datatype Slots = Slots(charSlot: Option<Card>, weapSlot: Option<Card>, roomSlot: Option<Card>)

  function SlotOf(s: Slots, t: CardType): Option<Card>
  {
    match t
    case CHARACTER => s.charSlot
    case WEAPON => s.weapSlot
    case ROOM => s.roomSlot
  }

  /** CardTuple.setCard: a card goes into the slot of its own type; a second
      card of a type whose slot is already filled is refused. */
  function SetCard(s: Slots, card: Card): (r: Result<Slots, Fault>)
    ensures r.Err? <==> SlotOf(s, card.kind).Some?
    ensures r.Err? ==> r.error == DuplicateCardType
    ensures r.Ok? ==> SlotOf(r.value, card.kind) == Some(card)
    ensures r.Ok? ==> forall t :: t != card.kind ==> SlotOf(r.value, t) == SlotOf(s, t)
  {
    match card.kind
    case CHARACTER =>
      if s.charSlot.Some? then Err(DuplicateCardType) else Ok(s.(charSlot := Some(card)))
    case WEAPON =>
      if s.weapSlot.Some? then Err(DuplicateCardType) else Ok(s.(weapSlot := Some(card)))
    case ROOM =>
      if s.roomSlot.Some? then Err(DuplicateCardType) else Ok(s.(roomSlot := Some(card)))
  }

  predicate DistinctKinds(a: Card, b: Card, c: Card)
  {
    a.kind != b.kind && a.kind != c.kind && b.kind != c.kind
  }

  /** The card a constructed tuple holds for type t. */
  function TupleSlot(tup: CardTuple, t: CardType): Card
  {
    match t
    case CHARACTER => tup.characterCard
    case WEAPON => tup.weaponCard
    case ROOM => tup.roomCard
  }

  /** The CardTuple constructor: setCard on each argument in turn. It
      succeeds exactly when the three cards have pairwise different types,
      and then every card sits in the slot of its own type. */
  method NewCardTuple(first: Card, second: Card, third: Card) returns (r: Result<CardTuple, Fault>)
    ensures r.Ok? <==> DistinctKinds(first, second, third)
    ensures r.Err? ==> r.error == DuplicateCardType
    ensures r.Ok? ==> r.value.characterCard.kind == CHARACTER
    ensures r.Ok? ==> r.value.weaponCard.kind == WEAPON
    ensures r.Ok? ==> r.value.roomCard.kind == ROOM
    ensures r.Ok? ==> && TupleSlot(r.value, first.kind) == first
                      && TupleSlot(r.value, second.kind) == second
                      && TupleSlot(r.value, third.kind) == third
  {
    var args := [first, second, third];
    var slots := Slots(None, None, None);
    for i := 0 to 3
      invariant forall j :: 0 <= j < i ==> SlotOf(slots, args[j].kind) == Some(args[j])
      invariant forall t :: SlotOf(slots, t).Some? ==> SlotOf(slots, t).value.kind == t
      invariant forall t :: SlotOf(slots, t).Some? ==> SlotOf(slots, t).value in args[..i]
      invariant forall j, k :: 0 <= j < k < i ==> args[j].kind != args[k].kind
    {
      var next := SetCard(slots, args[i]);
      if next.Err? {
        return Err(DuplicateCardType);
      }
      slots := next.value;
    }
    assert SlotOf(slots, args[0].kind) == Some(first);
    assert SlotOf(slots, args[1].kind) == Some(second);
    assert SlotOf(slots, args[2].kind) == Some(third);
    assert slots.charSlot.Some? && slots.weapSlot.Some? && slots.roomSlot.Some?;
    r := Ok(CardTuple(slots.charSlot.value, slots.weapSlot.value, slots.roomSlot.value));
  }

  /** A tuple whose slots hold three cards of pairwise different types holds
      exactly those three cards. */
  lemma TupleHoldsArguments(tup: CardTuple, first: Card, second: Card, third: Card)
    requires DistinctKinds(first, second, third)
    requires TupleSlot(tup, first.kind) == first && TupleSlot(tup, second.kind) == second
    requires TupleSlot(tup, third.kind) == third
    ensures multiset{first, second, third} == multiset{tup.characterCard, tup.weaponCard, tup.roomCard}
  {
    match first.kind
    case CHARACTER =>
      if second.kind == WEAPON {
        assert tup == CardTuple(first, second, third);
      } else {
        assert tup == CardTuple(first, third, second);
      }
    case WEAPON =>
      if second.kind == CHARACTER {
        assert tup == CardTuple(second, first, third);
      } else {
        assert tup == CardTuple(third, first, second);
      }
    case ROOM =>
      if second.kind == CHARACTER {
        assert tup == CardTuple(second, third, first);
      } else {
        assert tup == CardTuple(third, second, first);
      }
  }

  /** CardTuple.toString: "<character> with the <weapon> in the <room>". */
  function TupleText(t: CardTuple): (s: string)
    ensures |s| == |t.characterCard.name| + 10 + |t.weaponCard.name| + 8 + |t.roomCard.name|
    ensures s[..|t.characterCard.name|] == t.characterCard.name
    ensures s[|t.characterCard.name|..|t.characterCard.name| + 10] == " with the "
    ensures s[|t.characterCard.name| + 10..|t.characterCard.name| + 10 + |t.weaponCard.name|] == t.weaponCard.name
    ensures s[|s| - |t.roomCard.name| - 8..|s| - |t.roomCard.name|] == " in the "
    ensures s[|s| - |t.roomCard.name|..] == t.roomCard.name
  {
    t.characterCard.name + " with the " + t.weaponCard.name + " in the " + t.roomCard.name
  }

  // ------------------------------------------- the card lookups of Game.java

  /** Game.getCard: the cards are stored under their lower-cased names. */
  function GetCard(allCards: map<string, Card>, cardName: string): (r: Option<Card>)
    ensures r.Some? <==> ToLower(cardName) in allCards
    ensures r.Some? ==> r.value == allCards[ToLower(cardName)]
  {
    if ToLower(cardName) in allCards then Some(allCards[ToLower(cardName)]) else None
  }

  /** Game.checkAccusation: the accusation matches the case file when the
      character, room and weapon names are all equal. */
  predicate CheckAccusation(murder: CardTuple, accusation: CardTuple): (b: bool)
    ensures murder == accusation ==> b
    ensures b ==> TupleText(murder) == TupleText(accusation)
  {
    && murder.characterCard.name == accusation.characterCard.name
    && murder.roomCard.name == accusation.roomCard.name
    && murder.weaponCard.name == accusation.weaponCard.name
  }

  /** Each slot of a tuple built by the constructor holds a card of its
      own type. */
  predicate Slotted(t: CardTuple)
  {
    t.characterCard.kind == CHARACTER && t.weaponCard.kind == WEAPON && t.roomCard.kind == ROOM
  }

  /** For tuples built by the constructor, comparing the three names is
      comparing the tuples: an accusation wins exactly when it is the case
      file. */
  lemma AccusationMatchesOnlyTheCase(murder: CardTuple, accusation: CardTuple)
    requires Slotted(murder) && Slotted(accusation)
    ensures CheckAccusation(murder, accusation) <==> murder == accusation
  {
    if CheckAccusation(murder, accusation) {
      assert murder.characterCard == accusation.characterCard;
      assert murder.weaponCard == accusation.weaponCard;
      assert murder.roomCard == accusation.roomCard;
    }
  }
}
