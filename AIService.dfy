/**
 * The move-source adapter for the automated player: the oracle's answer is
 * untrusted and is re-validated before use, and a failed oracle call falls
 * back to a deterministic local policy.
 */
module AIService {
  import opened Types
  import opened GameLogic

  /** A proposed move: `cardIndex == None` means "draw instead of playing". */
  datatype AIMove = AIMove(cardIndex: Option<int>, chosenColor: Option<CardColor>)

  /** What the oracle call produced: a parsed answer, or a failure of any kind. */
  datatype OracleReply = Answered(move: AIMove) | Failed

  const DrawMove := AIMove(None, None)

  /**
   * A move is safe to hand to the engine: a chosen index names a legal card
   * of `hand`. A draw is always safe, and a safe play is only possible when
   * the hand has a legal card.
   */
  predicate IsSafeMove(hand: seq<Card>, topCard: Card, activeColor: CardColor, m: AIMove): (b: bool)
    ensures m.cardIndex.None? ==> b
    ensures b && m.cardIndex.Some? ==> CanPlayAny(hand, topCard, activeColor)
  {
    m.cardIndex.Some? ==>
      0 <= m.cardIndex.value < |hand| && IsValidMove(hand[m.cardIndex.value], topCard, activeColor)
  }

  /**
   * The safety check on the oracle's answer: an index with no card behind it,
   * or naming an illegal card, becomes a draw; anything else is passed through
   * unchanged (the chosen colour is not checked).
   */
  function ValidateReply(hand: seq<Card>, topCard: Card, activeColor: CardColor, result: AIMove): (m: AIMove)
    ensures result.cardIndex.Some? && !(0 <= result.cardIndex.value < |hand|) ==> m == DrawMove
    ensures (&& result.cardIndex.Some? && 0 <= result.cardIndex.value < |hand|
             && !IsValidMove(hand[result.cardIndex.value], topCard, activeColor)) ==> m == DrawMove
    ensures IsSafeMove(hand, topCard, activeColor, result) ==> m == result
    ensures IsSafeMove(hand, topCard, activeColor, m)
  {
    if result.cardIndex.Some? then
      var i := result.cardIndex.value;
      if !(0 <= i < |hand|) then DrawMove
      else if !IsValidMove(hand[i], topCard, activeColor) then DrawMove
      else result
    else result
  }

  /** `Array.findIndex` with the legality rule: the first legal position, or -1. */
  function FindPlayableIndex(hand: seq<Card>, topCard: Card, activeColor: CardColor): (i: int)
    ensures -1 <= i < |hand|
    ensures 0 <= i ==> IsValidMove(hand[i], topCard, activeColor)
    ensures 0 <= i ==> forall k :: 0 <= k < i ==> !IsValidMove(hand[k], topCard, activeColor)
    ensures i == -1 ==> forall k :: 0 <= k < |hand| ==> !IsValidMove(hand[k], topCard, activeColor)
  {
    if hand == [] then -1
    else if IsValidMove(hand[0], topCard, activeColor) then 0
    else
      var k := FindPlayableIndex(hand[1..], topCard, activeColor);
      assert forall j :: 1 <= j < |hand| ==> hand[j] == hand[1..][j - 1];
      if k == -1 then -1 else k + 1
  }

  /**
   * The local policy when the oracle fails: the first legal card, with RED as
   * the colour when that card is wild, or a draw when nothing is legal.
   */
  function FallbackMove(hand: seq<Card>, topCard: Card, activeColor: CardColor): (m: AIMove)
    ensures m.cardIndex.None? <==> !CanPlayAny(hand, topCard, activeColor)
    ensures m.cardIndex.None? ==> m == DrawMove
    ensures m.cardIndex.Some? ==>
              var i := m.cardIndex.value;
              && 0 <= i < |hand| && IsValidMove(hand[i], topCard, activeColor)
              && (forall k :: 0 <= k < i ==> !IsValidMove(hand[k], topCard, activeColor))
              && m.chosenColor == (if hand[i].color.Wild? then Some(Red) else None)
  {
    var playableIndex := FindPlayableIndex(hand, topCard, activeColor);
    if playableIndex != -1 then
      var card := hand[playableIndex];
      if card.color.Wild? then AIMove(Some(playableIndex), Some(Red))
      else AIMove(Some(playableIndex), None)
    else DrawMove
  }

  /**
   * The automated player's move: the validated oracle answer, or the fallback
   * when the oracle failed. On every path the move is safe for the engine.
   */
  function GetAIMove(hand: seq<Card>, topCard: Card, activeColor: CardColor, reply: OracleReply): (m: AIMove)
    ensures IsSafeMove(hand, topCard, activeColor, m)
    ensures reply.Answered? ==> m == ValidateReply(hand, topCard, activeColor, reply.move)
    ensures reply.Failed? ==> m == FallbackMove(hand, topCard, activeColor)
  {
    match reply
    case Answered(result) => ValidateReply(hand, topCard, activeColor, result)
    case Failed => FallbackMove(hand, topCard, activeColor)
  }

  /** An index beyond the hand is treated as a draw, whatever colour comes with it. */
  lemma OutOfRangeIndexMeansDraw(hand: seq<Card>, topCard: Card, activeColor: CardColor, i: int, color: Option<CardColor>)
    requires |hand| <= i
    ensures GetAIMove(hand, topCard, activeColor, Answered(AIMove(Some(i), color))) == DrawMove
  {
  }
}
