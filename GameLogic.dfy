/** The legality rule for playing a card. */
module GameLogic {
  import opened Types

  /**
   * A card may be played when it is wild, when its colour is the colour in
   * force (`activeColor`, not the top card's colour), or when its value
   * matches the top card's value.
   */
  function IsValidMove(card: Card, topCard: Card, activeColor: CardColor): (ok: bool)
    ensures card.color.Wild? ==> ok
    ensures ok <==> card.color.Wild? || card.color == activeColor || card.value == topCard.value
  {
    if card.color.Wild? then true
    else if card.color == activeColor then true
    else if card.value == topCard.value then true
    else false
  }

  /** Whether some card of `hand` may be played (the `Array.some` of the rule). */
  function CanPlayAny(hand: seq<Card>, topCard: Card, activeColor: CardColor): (any: bool)
    ensures any <==> exists i :: 0 <= i < |hand| && IsValidMove(hand[i], topCard, activeColor)
    ensures hand == [] ==> !any
  {
    if hand == [] then false
    else if IsValidMove(hand[0], topCard, activeColor) then true
    else
      var rest := CanPlayAny(hand[1..], topCard, activeColor);
      assert forall i :: 1 <= i < |hand| ==> hand[i] == hand[1..][i - 1];
      rest
  }

  /**
   * Colour matching is against the active colour: a non-wild card that
   * shares only the top card's colour, when a wild has set another colour and
   * the values differ, is refused.
   */
  lemma TopColorAloneIsNotEnough(card: Card, topCard: Card, activeColor: CardColor)
    requires !card.color.Wild? && card.color == topCard.color
    requires activeColor != topCard.color && card.value != topCard.value
    ensures !IsValidMove(card, topCard, activeColor)
  {
  }
}
