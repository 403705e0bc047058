/**
 * The game engine: turn arithmetic, drawing with refill from the discard
 * pile, and the game state with its transitions.
 */
module Game {
  import opened Types
  import opened GameLogic
  import opened Counting
  import opened Deck
  import opened AIService

  const HandSize: nat := 7

  function Last<T>(s: seq<T>): T
    requires |s| > 0
  {
    s[|s| - 1]
  }

  // ---------------------------------------------------------------------------
  // Turn arithmetic

  /** JavaScript's `%`: truncating division, so the remainder has the dividend's sign. */
  function JsRem(a: int, n: int): (r: int)
    requires n > 0
    ensures -n < r < n
    ensures a >= 0 ==> r >= 0
    ensures a <= 0 ==> r <= 0
    ensures -n < a < n ==> r == a
  {
    if a >= 0 then a % n else -((-a) % n)
  }

  lemma {:induction false} MulAtLeast(d: int, n: int)
    requires d >= 1 && n > 0
    ensures d * n >= n
    decreases d
  {
    if d > 1 {
      MulAtLeast(d - 1, n);
      assert d * n == (d - 1) * n + n;
    }
  }

  /** The Euclidean remainder is determined by any quotient-remainder decomposition. */
  lemma ModUnique(a: int, n: int, k: int, r: int)
    requires n > 0 && a == k * n + r && 0 <= r < n
    ensures a % n == r
  {
    var q := a / n;
    var r' := a % n;
    assert a == q * n + r';
    var d := k - q;
    assert d * n == r' - r by {
      assert d * n == k * n - q * n;
    }
    if d >= 1 {
      MulAtLeast(d, n);
    } else if d <= -1 {
      MulAtLeast(-d, n);
    }
  }

  /** The JavaScript remainder, lifted into [0, n) when negative, is the mathematical residue. */
  lemma {:induction false} JsRemResidue(a: int, n: int)
    requires n > 0
    ensures (if JsRem(a, n) < 0 then JsRem(a, n) + n else JsRem(a, n)) == a % n
  {
    if a < 0 {
      var q := (-a) / n;
      var m := (-a) % n;
      assert -a == q * n + m;
      if m == 0 {
        ModUnique(a, n, -q, 0);
      } else {
        ModUnique(a, n, -q - 1, n - m);
      }
    }
  }

  /**
   * The player after `cur` when `direction` is followed for one step, or two
   * when the next player is skipped.
   */
  function NextIndex(cur: int, direction: int, n: int, skip: bool): (r: int)
    requires n > 0
    ensures 0 <= r < n
    ensures r == (cur + direction * (if skip then 2 else 1)) % n
    ensures n == 2 && skip && 0 <= cur < n && (direction == 1 || direction == -1) ==> r == cur
  {
    var step := direction * (if skip then 2 else 1);
    var nextIndex := JsRem(cur + step, n);
    JsRemResidue(cur + step, n);
    if nextIndex < 0 then nextIndex + n else nextIndex
  }

  // ---------------------------------------------------------------------------
  // Drawing

  /** The draw pile (`deck`, drawn from its end) and the discard pile (its end is the top card). */
  datatype Piles = Piles(deck: seq<Card>, discard: seq<Card>)

  function Size(p: Piles): nat {
    |p.deck| + |p.discard|
  }

  function Contents(p: Piles): multiset<Card> {
    multiset(p.deck) + multiset(p.discard)
  }

  /** A card can be drawn: the draw pile has one, or the discard pile has more than its top. */
  predicate CanDraw(p: Piles): (b: bool)
    ensures b ==> Size(p) > 0
    ensures |p.discard| > 0 ==> (b <==> Size(p) > 1)
  {
    |p.deck| > 0 || |p.discard| > 1
  }

  /** Popping the last element of `s` leaves the rest. */
  lemma PopLast<T>(s: seq<T>)
    requires |s| > 0
    ensures s == s[..|s| - 1] + [Last(s)]
    ensures multiset(s[..|s| - 1]) + multiset{Last(s)} == multiset(s)
  {
    assert s == s[..|s| - 1] + [Last(s)];
  }

  /**
   * The refill of an empty draw pile: the top card is set aside as the only
   * discard and the rest of the discard pile, shuffled, becomes the draw pile.
   */
  function Refill(p: Piles, rand: seq<nat>): (q: Piles)
    requires |p.discard| > 0
    ensures q.discard == [Last(p.discard)]
    ensures q.deck == Shuffled(p.discard[..|p.discard| - 1], rand)
    ensures |q.deck| + 1 == |p.discard|
  {
    ShufflePermutes(p.discard[..|p.discard| - 1], rand);
    Piles(Shuffled(p.discard[..|p.discard| - 1], rand), [Last(p.discard)])
  }

  /** A refill only moves cards from the discard pile to the draw pile. */
  lemma RefillConserves(p: Piles, rand: seq<nat>)
    requires |p.discard| > 0
    ensures Contents(Refill(p, rand)) == multiset(p.discard)
  {
    PopLast(p.discard);
    ShufflePermutes(p.discard[..|p.discard| - 1], rand);
  }

  /**
   * One draw: an empty draw pile is first refilled from the discard pile;
   * then the last card of the draw pile is taken.
   */
  function DrawFrom(p: Piles, rand: seq<nat>): (r: (Piles, Card))
    requires CanDraw(p)
    ensures Size(r.0) + 1 == Size(p)
    ensures |p.discard| > 0 ==> |r.0.discard| > 0 && Last(r.0.discard) == Last(p.discard)
    ensures |p.deck| > 0 ==> r.0 == Piles(p.deck[..|p.deck| - 1], p.discard) && r.1 == Last(p.deck)
    ensures |p.deck| == 0 ==>
              && r.0.discard == [Last(p.discard)]
              && r.0.deck + [r.1] == Shuffled(p.discard[..|p.discard| - 1], rand)
  {
    if |p.deck| == 0 then
      var q := Refill(p, rand);
      PopLast(q.deck);
      (Piles(q.deck[..|q.deck| - 1], q.discard), Last(q.deck))
    else
      PopLast(p.deck);
      (Piles(p.deck[..|p.deck| - 1], p.discard), Last(p.deck))
  }

  /** A draw takes exactly the drawn card out of the piles. */
  lemma DrawFromConserves(p: Piles, rand: seq<nat>)
    requires CanDraw(p)
    ensures Contents(DrawFrom(p, rand).0) + multiset{DrawFrom(p, rand).1} == Contents(p)
  {
    if |p.deck| == 0 {
      var q := Refill(p, rand);
      RefillConserves(p, rand);
      PopLast(q.deck);
    } else {
      PopLast(p.deck);
    }
  }

  /** The random stream for the refill that may happen at forced draw `i`. */
  function RandAt(rands: seq<seq<nat>>, i: nat): seq<nat> {
    if i < |rands| then rands[i] else []
  }

  /**
   * `k` draws in a row; enough cards exist when `k` is below the size of
   * both piles together (the top card never leaves the discard pile).
   */
  function DrawMany(p: Piles, k: nat, rands: seq<seq<nat>>): (r: (Piles, seq<Card>))
    requires |p.discard| > 0 && k < Size(p)
    ensures |r.1| == k
    ensures Size(r.0) + k == Size(p)
    ensures |r.0.discard| > 0 && Last(r.0.discard) == Last(p.discard)
  {
    if k == 0 then (p, [])
    else
      var (q, drawn) := DrawMany(p, k - 1, rands);
      var (q', c) := DrawFrom(q, RandAt(rands, k - 1));
      (q', drawn + [c])
  }

  /** `k` draws take exactly the drawn cards out of the piles. */
  lemma {:induction false} DrawManyConserves(p: Piles, k: nat, rands: seq<seq<nat>>)
    requires |p.discard| > 0 && k < Size(p)
    ensures Contents(DrawMany(p, k, rands).0) + multiset(DrawMany(p, k, rands).1) == Contents(p)
  {
    if k > 0 {
      var (q, drawn) := DrawMany(p, k - 1, rands);
      var (q', c) := DrawFrom(q, RandAt(rands, k - 1));
      assert DrawMany(p, k, rands) == (q', drawn + [c]);
      DrawManyConserves(p, k - 1, rands);
      DrawFromConserves(q, RandAt(rands, k - 1));
      calc {
        Contents(q') + multiset(drawn + [c]);
        (Contents(q') + multiset{c}) + multiset(drawn);
        Contents(q) + multiset(drawn);
      }
    }
  }

  // ---------------------------------------------------------------------------
  // Hands

  /** All cards held by `ps`, hand after hand. */
  function Hands(ps: seq<Player>): seq<Card> {
    if |ps| == 0 then [] else ps[0].hand + Hands(ps[1..])
  }

  /** Replacing one hand changes the cards held by exactly the difference of the two hands. */
  lemma {:induction false} HandsUpdate(ps: seq<Player>, k: int, h: seq<Card>)
    requires 0 <= k < |ps|
    ensures multiset(Hands(ps[k := ps[k].(hand := h)])) + multiset(ps[k].hand) == multiset(Hands(ps)) + multiset(h)
  {
    var ps' := ps[k := ps[k].(hand := h)];
    if k == 0 {
      assert ps'[1..] == ps[1..];
      assert Hands(ps') == h + Hands(ps[1..]);
      assert Hands(ps) == ps[0].hand + Hands(ps[1..]);
    } else {
      assert ps[1..][k - 1] == ps[k];
      var tail' := ps[1..][k - 1 := ps[1..][k - 1].(hand := h)];
      assert ps'[1..] == tail';
      HandsUpdate(ps[1..], k - 1, h);
      assert Hands(ps') == ps[0].hand + Hands(tail');
      assert Hands(ps) == ps[0].hand + Hands(ps[1..]);
      assert multiset(Hands(ps')) == multiset(ps[0].hand) + multiset(Hands(tail'));
      assert multiset(Hands(ps)) == multiset(ps[0].hand) + multiset(Hands(ps[1..]));
      calc {
        multiset(Hands(ps')) + multiset(ps[k].hand);
        multiset(ps[0].hand) + (multiset(Hands(tail')) + multiset(ps[k].hand));
        multiset(ps[0].hand) + (multiset(Hands(ps[1..])) + multiset(h));
        multiset(Hands(ps)) + multiset(h);
      }
    }
  }

  function RemoveAt<T>(s: seq<T>, i: int): (r: seq<T>)
    requires 0 <= i < |s|
    ensures |r| == |s| - 1
    ensures forall k :: 0 <= k < i ==> r[k] == s[k]
    ensures forall k :: i <= k < |r| ==> r[k] == s[k + 1]
  {
    s[..i] + s[i + 1..]
  }

  /** Removing the element at `i` takes exactly that element out. */
  lemma RemoveAtConserves<T>(s: seq<T>, i: int)
    requires 0 <= i < |s|
    ensures multiset(RemoveAt(s, i)) + multiset{s[i]} == multiset(s)
  {
    assert s == s[..i] + [s[i]] + s[i + 1..];
  }

  lemma MultisetCancel<T>(a: multiset<T>, b: multiset<T>, x: multiset<T>)
    requires a + x == b + x
    ensures a == b
  {
    forall e: T ensures a[e] == b[e] {
      assert (a + x)[e] == (b + x)[e];
    }
  }

  /** Replacing the hand at `k` by `hand + drawn` adds exactly `drawn` to the cards held. */
  lemma HandsGrow(ps: seq<Player>, k: int, drawn: seq<Card>)
    requires 0 <= k < |ps|
    ensures multiset(Hands(ps[k := ps[k].(hand := ps[k].hand + drawn)])) == multiset(Hands(ps)) + multiset(drawn)
  {
    var ps' := ps[k := ps[k].(hand := ps[k].hand + drawn)];
    HandsUpdate(ps, k, ps[k].hand + drawn);
    assert multiset(ps[k].hand + drawn) == multiset(ps[k].hand) + multiset(drawn);
    MultisetCancel(multiset(Hands(ps')), multiset(Hands(ps)) + multiset(drawn), multiset(ps[k].hand));
  }

  /** Removing the card at `i` from hand `k` takes exactly that card out of the cards held. */
  lemma HandsShrink(ps: seq<Player>, k: int, i: int)
    requires 0 <= k < |ps| && 0 <= i < |ps[k].hand|
    ensures multiset(Hands(ps[k := ps[k].(hand := RemoveAt(ps[k].hand, i))])) + multiset{ps[k].hand[i]}
            == multiset(Hands(ps))
  {
    var h := RemoveAt(ps[k].hand, i);
    var ps' := ps[k := ps[k].(hand := h)];
    RemoveAtConserves(ps[k].hand, i);
    HandsUpdate(ps, k, h);
    assert multiset(Hands(ps')) + multiset{ps[k].hand[i]} + multiset(h) == multiset(Hands(ps)) + multiset(h);
    MultisetCancel(multiset(Hands(ps')) + multiset{ps[k].hand[i]}, multiset(Hands(ps)), multiset(h));
  }

  /** A card drawn into hand `k` leaves the cards in play as they were. */
  lemma DrawConserves(p: Piles, rand: seq<nat>, ps: seq<Player>, k: int, dealt: seq<Card>)
    requires CanDraw(p) && 0 <= k < |ps|
    requires Bag(p.deck + p.discard + Hands(ps)) == Bag(dealt)
    ensures var (q, card) := DrawFrom(p, rand);
            Bag(q.deck + q.discard + Hands(ps[k := ps[k].(hand := ps[k].hand + [card])])) == Bag(dealt)
  {
    var (q, card) := DrawFrom(p, rand);
    var ps' := ps[k := ps[k].(hand := ps[k].hand + [card])];
    DrawFromConserves(p, rand);
    HandsGrow(ps, k, [card]);
    BagIsMultiset(p.deck + p.discard + Hands(ps));
    BagIsMultiset(q.deck + q.discard + Hands(ps'));
    BagIsMultiset(dealt);
    calc {
      multiset(q.deck + q.discard + Hands(ps'));
      Contents(q) + multiset(Hands(ps'));
      Contents(q) + (multiset(Hands(ps)) + multiset{card});
      (Contents(q) + multiset{card}) + multiset(Hands(ps));
      Contents(p) + multiset(Hands(ps));
      multiset(p.deck + p.discard + Hands(ps));
    }
  }

  /** A winning play moves the card from hand `k` to the discard pile. */
  lemma WinConserves(deck: seq<Card>, discard: seq<Card>, ps: seq<Player>, k: int, i: int, dealt: seq<Card>)
    requires 0 <= k < |ps| && 0 <= i < |ps[k].hand|
    requires Bag(deck + discard + Hands(ps)) == Bag(dealt)
    ensures Bag(deck + (discard + [ps[k].hand[i]]) + Hands(ps[k := ps[k].(hand := RemoveAt(ps[k].hand, i))]))
            == Bag(dealt)
  {
    var card := ps[k].hand[i];
    var after := ps[k := ps[k].(hand := RemoveAt(ps[k].hand, i))];
    HandsShrink(ps, k, i);
    BagIsMultiset(deck + discard + Hands(ps));
    BagIsMultiset(deck + (discard + [card]) + Hands(after));
    BagIsMultiset(dealt);
    calc {
      multiset(deck + (discard + [card]) + Hands(after));
      multiset(deck) + multiset(discard) + (multiset{card} + multiset(Hands(after)));
      multiset(deck) + multiset(discard) + multiset(Hands(ps));
      multiset(deck + discard + Hands(ps));
    }
  }

  /** The cards in play after forced draws into hand `t`, split into piles, drawn cards and the hands before. */
  lemma ForcedDrawsSplit(q: Piles, ps: seq<Player>, t: int, drawn: seq<Card>)
    requires 0 <= t < |ps|
    ensures multiset(q.deck + q.discard + Hands(ps[t := ps[t].(hand := ps[t].hand + drawn)]))
            == (Contents(q) + multiset(drawn)) + multiset(Hands(ps))
  {
    HandsGrow(ps, t, drawn);
  }

  /** The cards in play before a play, with the played card put on the discard pile. */
  lemma PlaySplit(deck: seq<Card>, discard: seq<Card>, ps: seq<Player>, k: int, i: int)
    requires 0 <= k < |ps| && 0 <= i < |ps[k].hand|
    ensures Contents(Piles(deck, discard + [ps[k].hand[i]])) + multiset(Hands(ps[k := ps[k].(hand := RemoveAt(ps[k].hand, i))]))
            == multiset(deck + discard + Hands(ps))
  {
    HandsShrink(ps, k, i);
  }

  /**
   * A play that does not win moves the card to the discard pile and then
   * `n` cards from the piles to hand `t`.
   */
  lemma PlayConserves(deck: seq<Card>, discard: seq<Card>, ps: seq<Player>, k: int, i: int, t: int, n: nat,
                      rands: seq<seq<nat>>, dealt: seq<Card>)
    requires 0 <= k < |ps| && 0 <= i < |ps[k].hand| && 0 <= t < |ps|
    requires n <= |deck| + |discard|
    requires Bag(deck + discard + Hands(ps)) == Bag(dealt)
    ensures var after := ps[k := ps[k].(hand := RemoveAt(ps[k].hand, i))];
            var (q, drawn) := DrawMany(Piles(deck, discard + [ps[k].hand[i]]), n, rands);
            Bag(q.deck + q.discard + Hands(after[t := after[t].(hand := after[t].hand + drawn)])) == Bag(dealt)
  {
    var after := ps[k := ps[k].(hand := RemoveAt(ps[k].hand, i))];
    var start := Piles(deck, discard + [ps[k].hand[i]]);
    var (q, drawn) := DrawMany(start, n, rands);
    DrawManyConserves(start, n, rands);
    ForcedDrawsSplit(q, after, t, drawn);
    PlaySplit(deck, discard, ps, k, i);
    BagIsMultiset(deck + discard + Hands(ps));
    BagIsMultiset(q.deck + q.discard + Hands(after[t := after[t].(hand := after[t].hand + drawn)]));
    BagIsMultiset(dealt);
  }

  // ---------------------------------------------------------------------------
  // The seed card

  /** The number of wild-coloured cards at the end of `s`. */
  function TrailingWild(s: seq<Card>): (t: nat)
    ensures t <= |s|
  {
    if |s| == 0 then 0
    else if Last(s).color.Wild? then 1 + TrailingWild(s[..|s| - 1])
    else 0
  }

  /** Counting back from the end, the cards before position `TrailingWild(s)` are wild and the one there is not. */
  lemma {:induction false} TrailingWildAt(s: seq<Card>, j: nat)
    requires j < |s| && j <= TrailingWild(s)
    ensures s[|s| - 1 - j].color.Wild? <==> j < TrailingWild(s)
  {
    if j > 0 {
      var s' := s[..|s| - 1];
      TrailingWildAt(s', j - 1);
      assert s'[|s'| - 1 - (j - 1)] == s[|s| - 1 - j];
    }
  }

  lemma {:induction false} TrailingWildBound(s: seq<Card>)
    ensures TrailingWild(s) <= WildCount(s)
  {
    if |s| > 0 {
      TrailingWildBound(s[..|s| - 1]);
    }
  }

  /** `s` with its last `k` elements moved, in order, to the front. */
  function RotateRight<T>(s: seq<T>, k: nat): (r: seq<T>)
    requires k <= |s|
    ensures |r| == |s|
  {
    s[|s| - k..] + s[..|s| - k]
  }

  lemma RotateConserves<T>(s: seq<T>, k: nat)
    requires k <= |s|
    ensures multiset(RotateRight(s, k)) == multiset(s)
  {
    assert s == s[..|s| - k] + s[|s| - k..];
  }

  /** Taking the last card of a rotation and putting it in front rotates one step further. */
  lemma RotateStep<T>(s: seq<T>, j: nat)
    requires j < |s|
    ensures Last(RotateRight(s, j)) == s[|s| - 1 - j]
    ensures [Last(RotateRight(s, j))] + RotateRight(s, j)[..|s| - 1] == RotateRight(s, j + 1)
  {
    var n := |s|;
    var r := RotateRight(s, j);
    assert r[..n - 1] == s[n - j..] + s[..n - j - 1];
    assert s[n - j - 1..] == [s[n - j - 1]] + s[n - j..];
  }

  /**
   * The seed-card loop of `initGame`: flip the last card; while it is wild,
   * put it at the front of the deck and flip the next last card. The cards
   * are only rotated, never reshuffled.
   */
  method FlipSeed(rest: seq<Card>) returns (fullDeck: seq<Card>, firstCard: Card)
    requires TrailingWild(rest) < |rest|
    ensures fullDeck + [firstCard] == RotateRight(rest, TrailingWild(rest))
    ensures !firstCard.color.Wild?
    ensures firstCard == rest[|rest| - 1 - TrailingWild(rest)]
  {
    ghost var stop := TrailingWild(rest);
    fullDeck := rest[..|rest| - 1];
    firstCard := Last(rest);
    ghost var turns := 0;
    assert fullDeck + [firstCard] == RotateRight(rest, 0);
    RotateStep(rest, 0);
    TrailingWildAt(rest, 0);
    while firstCard.color.Wild?
      invariant turns <= stop
      invariant fullDeck + [firstCard] == RotateRight(rest, turns)
      invariant firstCard == rest[|rest| - 1 - turns]
      invariant firstCard.color.Wild? <==> turns < stop
      decreases stop - turns
    {
      RotateStep(rest, turns);
      var rotated := [firstCard] + fullDeck;
      assert rotated == RotateRight(rest, turns + 1);
      fullDeck := rotated;
      firstCard := Last(fullDeck);
      fullDeck := fullDeck[..|fullDeck| - 1];
      assert fullDeck + [firstCard] == rotated;
      turns := turns + 1;
      RotateStep(rest, turns);
      TrailingWildAt(rest, turns);
    }
  }

  /**
   * One draw as `drawCard` and the forced-draw loop of `handlePlayCard` do
   * it: when the draw pile is empty, the discard pile below its top card is
   * shuffled into a new draw pile; then its last card is taken.
   */
  method TakeCard(p: Piles, rand: seq<nat>) returns (q: Piles, card: Card)
    requires CanDraw(p)
    ensures (q, card) == DrawFrom(p, rand)
  {
    var currentDeck := p.deck;
    var currentDiscard := p.discard;
    if |currentDeck| == 0 {
      var top := Last(currentDiscard);
      currentDeck := Shuffle(currentDiscard[..|currentDiscard| - 1], rand);
      currentDiscard := [top];
    }
    card := Last(currentDeck);
    q := Piles(currentDeck[..|currentDeck| - 1], currentDiscard);
  }

  /**
   * The forced-draw loop of `handlePlayCard`: `k` draws pushed one by one
   * onto `hand`, refill `i` shuffling with stream `rands[i]`.
   */
  method ForcedDraws(p: Piles, hand: seq<Card>, k: nat, rands: seq<seq<nat>>) returns (q: Piles, newHand: seq<Card>)
    requires |p.discard| > 0 && k < Size(p)
    ensures q == DrawMany(p, k, rands).0
    ensures newHand == hand + DrawMany(p, k, rands).1
  {
    q, newHand := p, hand;
    ghost var drawnSoFar: seq<Card> := [];
    for i := 0 to k
      invariant DrawMany(p, i, rands) == (q, drawnSoFar)
      invariant newHand == hand + drawnSoFar
    {
      var drawn;
      q, drawn := TakeCard(q, RandAt(rands, i));
      newHand := newHand + [drawn];
      drawnSoFar := drawnSoFar + [drawn];
    }
  }

  // ---------------------------------------------------------------------------
  // Effects of a played card

  /**
   * The values that end the turn with a skip (`isAction`): REVERSE counts
   * whatever the player count. They are exactly the values that are neither
   * numbers nor the plain WILD.
   */
  predicate IsAction(v: CardValue): (b: bool)
    ensures b <==> v !in NumberValues && !v.Wild?
  {
    v.Skip? || v.DrawTwo? || v.WildDrawFour? || v.Reverse?
  }

  /** The cards the next player is forced to draw: only DRAW TWO and WILD DRAW FOUR force any. */
  function DrawCount(v: CardValue): (k: nat)
    ensures k <= 4
    ensures k > 0 <==> v.DrawTwo? || v.WildDrawFour?
    ensures k > 0 ==> IsAction(v)
  {
    if v.DrawTwo? then 2 else if v.WildDrawFour? then 4 else 0
  }

  /** A wild card sets the chosen colour, RED when none was given; any other card its own colour. */
  function NewActiveColor(card: Card, chosenColor: Option<CardColor>): (c: CardColor)
    ensures !card.color.Wild? ==> c == card.color
    ensures (chosenColor.Some? ==> !chosenColor.value.Wild?) ==> !c.Wild?
  {
    if card.color.Wild? then (if chosenColor.Some? then chosenColor.value else Red) else card.color
  }

  /** REVERSE flips the direction unless there are exactly two players. */
  function NewDirection(v: CardValue, n: int, direction: int): (d: int)
    ensures d == direction || d == -direction
    ensures direction != 0 ==> (d == -direction <==> v.Reverse? && n != 2)
  {
    if v.Reverse? && n != 2 then -direction else direction
  }

  datatype ClickOutcome = NotYourTurn | InvalidMove | ColorPickCancelled | Played

  // ---------------------------------------------------------------------------
  // The game state

  /**
   * The record the screen shows: the players with their hands, the draw pile
   * `deck`, the discard pile, whose turn it is, the direction of play (1 or
   * -1), the colour in force, the status, the winner and whether the
   * automated player is thinking. The status message is left out.
   */
  datatype GameState = GameState(
    players: seq<Player>,
    deck: seq<Card>,
    discardPile: seq<Card>,
    currentPlayerIndex: int,
    direction: int,
    activeColor: CardColor,
    status: GameStatus,
    winner: Option<Player>,
    isThinking: bool)

  /** The welcome state, before any game. */
  const Welcome: GameState := GameState([], [], [], 0, 1, Red, Lobby, None, false)

  /** Every card in play: the draw pile, then the discard pile, then the hands. */
  function AllCards(g: GameState): seq<Card> {
    g.deck + g.discardPile + Hands(g.players)
  }

  /**
   * The invariant of a game dealt from `dealt`: the direction is 1 or -1;
   * once a game is started the turn names a player, the discard pile is
   * never empty and the piles and hands together hold exactly the cards
   * dealt; a game in progress has no winner and a finished one has a winner
   * with an empty hand. So a started game holds as many cards as were dealt.
   */
  ghost predicate Consistent(g: GameState, dealt: seq<Card>): (b: bool)
    ensures b && g.status != Lobby ==> |g.deck| + |g.discardPile| + |Hands(g.players)| == |dealt|
  {
    BagIsMultiset(AllCards(g));
    BagIsMultiset(dealt);
    && (g.direction == 1 || g.direction == -1)
    && (g.status != Lobby ==>
          && 0 <= g.currentPlayerIndex < |g.players|
          && |g.discardPile| > 0
          && Bag(AllCards(g)) == Bag(dealt))
    && (g.status == Playing ==> g.winner == None)
    && (g.status == Finished ==> g.winner.Some? && g.winner.value.hand == [])
  }

  // ---------------------------------------------------------------------------
  // initGame

  /** After the two hands, the rest of the deck holds a card that is not wild. */
  predicate CanSeed(full: seq<Card>) {
    2 * HandSize <= |full| && TrailingWild(full[2 * HandSize..]) < |full| - 2 * HandSize
  }

  /**
   * The state `initGame` deals from the deck `full`: the first seven cards
   * to the human, the next seven to the automated player; the rest is
   * turned, last card first, until a card that is not wild comes up, the
   * wild cards passed over going to the front. That card starts the discard
   * pile and sets the colour; the human moves first.
   */
  function Deal(full: seq<Card>): (g: GameState)
    requires CanSeed(full)
    ensures |g.deck| == |full| - 2 * HandSize - 1 && |g.discardPile| == 1
  {
    var rest := full[2 * HandSize..];
    var rotated := RotateRight(rest, TrailingWild(rest));
    var firstCard := Last(rotated);
    GameState(
      [Player("p1", "You", Human, full[..HandSize]), Player("ai", "Gemini Master", AI, full[HandSize..2 * HandSize])],
      rotated[..|rotated| - 1], [firstCard], 0, 1, firstCard.color, Playing, None, false)
  }

  /** A standard deck has only 8 wild cards, so the seed card is always found. */
  lemma StandardDeckCanSeed(full: seq<Card>)
    requires IsStandardDeck(full)
    ensures CanSeed(full)
  {
    var rest := full[2 * HandSize..];
    CountIfConcat(full[..2 * HandSize], rest, IsWildColored);
    assert full == full[..2 * HandSize] + rest;
    TrailingWildBound(rest);
  }

  /**
   * The seed card is the last card of the rest of the deck that is not wild;
   * every card after it is wild. The hands hold seven cards each.
   */
  lemma DealSeed(full: seq<Card>)
    requires CanSeed(full)
    ensures var g := Deal(full);
            var rest := full[2 * HandSize..];
            var t := TrailingWild(rest);
            && Last(g.discardPile) == rest[|rest| - 1 - t]
            && !Last(g.discardPile).color.Wild? && g.activeColor == Last(g.discardPile).color
            && (forall j :: |rest| - t <= j < |rest| ==> rest[j].color.Wild?)
            && |g.players| == 2 && |g.players[0].hand| == HandSize && |g.players[1].hand| == HandSize
            && g.players[0].hand == full[..HandSize] && g.players[1].hand == full[HandSize..2 * HandSize]
            && g.players[0].kind == Human && g.players[1].kind == AI
            && g.deck == rest[|rest| - t..] + rest[..|rest| - 1 - t]
            && g.currentPlayerIndex == 0 && g.direction == 1 && g.status == Playing
            && g.winner == None && !g.isThinking
  {
    var rest := full[2 * HandSize..];
    var t := TrailingWild(rest);
    RotateStep(rest, t);
    TrailingWildAt(rest, t);
    forall j | |rest| - t <= j < |rest|
      ensures rest[j].color.Wild?
    {
      TrailingWildAt(rest, |rest| - 1 - j);
    }
  }

  /** Dealing keeps every card: the new game holds exactly the deck it was dealt from. */
  lemma DealConsistent(full: seq<Card>)
    requires CanSeed(full)
    ensures Consistent(Deal(full), full)
  {
    var g := Deal(full);
    var rest := full[2 * HandSize..];
    var rotated := RotateRight(rest, TrailingWild(rest));
    RotateConserves(rest, TrailingWild(rest));
    assert Hands(g.players) == full[..HandSize] + full[HandSize..2 * HandSize] by {
      assert Hands(g.players[1..]) == full[HandSize..2 * HandSize] + Hands(g.players[1..][1..]);
    }
    assert rotated == g.deck + g.discardPile;
    assert full == full[..HandSize] + full[HandSize..2 * HandSize] + rest;
    BagIsMultiset(AllCards(g));
    BagIsMultiset(full);
  }

  // ---------------------------------------------------------------------------
  // drawCard and nextTurn

  /**
   * `drawCard(playerIndex)`: outside a game, or when the draw pile is empty
   * and the discard pile holds only its top card, nothing changes; otherwise
   * the player takes one card, after a refill when the draw pile is empty.
   */
  function AfterDraw(g: GameState, playerIndex: int, rand: seq<nat>): (h: GameState)
    requires g.status == Playing ==> 0 <= playerIndex < |g.players|
    ensures |h.players| == |g.players| && h.status == g.status
    ensures g.status != Playing || !CanDraw(Piles(g.deck, g.discardPile)) ==> h == g
  {
    if g.status != Playing || !CanDraw(Piles(g.deck, g.discardPile)) then g
    else
      var (q, card) := DrawFrom(Piles(g.deck, g.discardPile), rand);
      g.(players := g.players[playerIndex := g.players[playerIndex].(hand := g.players[playerIndex].hand + [card])],
         deck := q.deck, discardPile := q.discard)
  }

  /**
   * A draw that happens puts one card at the end of the player's hand and
   * takes one from the piles: the last card of the draw pile when there is
   * one, and in any case not the top of the discard pile; the other hands,
   * the turn, the colour and the status stay as they were.
   */
  lemma DrawTakesOne(g: GameState, playerIndex: int, rand: seq<nat>)
    requires g.status == Playing && 0 <= playerIndex < |g.players|
    requires CanDraw(Piles(g.deck, g.discardPile))
    ensures var h := AfterDraw(g, playerIndex, rand);
            && |h.players| == |g.players|
            && h.players[playerIndex].hand[..|g.players[playerIndex].hand|] == g.players[playerIndex].hand
            && |h.players[playerIndex].hand| == |g.players[playerIndex].hand| + 1
            && (forall k :: 0 <= k < |g.players| && k != playerIndex ==> h.players[k] == g.players[k])
            && |h.deck| + |h.discardPile| + 1 == |g.deck| + |g.discardPile|
            && h.players[playerIndex] == g.players[playerIndex].(hand := g.players[playerIndex].hand + [Last(h.players[playerIndex].hand)])
            && (|g.deck| > 0 ==>
                  && h.players[playerIndex] == g.players[playerIndex].(hand := g.players[playerIndex].hand + [Last(g.deck)])
                  && h.deck == g.deck[..|g.deck| - 1] && h.discardPile == g.discardPile)
            && (|g.deck| == 0 ==>
                  && h.discardPile == [Last(g.discardPile)]
                  && h.deck + [Last(h.players[playerIndex].hand)] == Shuffled(g.discardPile[..|g.discardPile| - 1], rand))
            && (|g.discardPile| > 0 ==> |h.discardPile| > 0 && Last(h.discardPile) == Last(g.discardPile))
            && h.currentPlayerIndex == g.currentPlayerIndex && h.direction == g.direction && h.isThinking == g.isThinking
            && h.activeColor == g.activeColor && h.status == g.status && h.winner == g.winner
  {
    var (q, card) := DrawFrom(Piles(g.deck, g.discardPile), rand);
    var h := AfterDraw(g, playerIndex, rand);
    assert h.players[playerIndex].hand == g.players[playerIndex].hand + [card];
  }

  /** Drawing keeps the invariant. */
  lemma DrawKeeps(g: GameState, dealt: seq<Card>, playerIndex: int, rand: seq<nat>)
    requires Consistent(g, dealt)
    requires g.status == Playing ==> 0 <= playerIndex < |g.players|
    ensures Consistent(AfterDraw(g, playerIndex, rand), dealt)
  {
    if g.status == Playing && CanDraw(Piles(g.deck, g.discardPile)) {
      DrawConserves(Piles(g.deck, g.discardPile), rand, g.players, playerIndex, dealt);
    }
  }

  /** `nextTurn(skip)`: the turn moves on and the thinking flag is cleared. */
  function AfterNextTurn(g: GameState, skip: bool): (h: GameState)
    requires |g.players| > 0
    ensures 0 <= h.currentPlayerIndex < |g.players| && !h.isThinking
    ensures h.currentPlayerIndex == (g.currentPlayerIndex + g.direction * (if skip then 2 else 1)) % |g.players|
    ensures h.(currentPlayerIndex := g.currentPlayerIndex, isThinking := g.isThinking) == g
  {
    g.(currentPlayerIndex := NextIndex(g.currentPlayerIndex, g.direction, |g.players|, skip), isThinking := false)
  }

  /** With two players a plain turn alternates, and a skip comes back to the same player. */
  lemma TwoPlayerTurns(g: GameState, skip: bool)
    requires |g.players| == 2 && 0 <= g.currentPlayerIndex < 2 && (g.direction == 1 || g.direction == -1)
    ensures AfterNextTurn(g, skip).currentPlayerIndex == if skip then g.currentPlayerIndex else 1 - g.currentPlayerIndex
    ensures !AfterNextTurn(g, skip).isThinking
  {
  }

  /** Moving the turn keeps the invariant. */
  lemma NextTurnKeeps(g: GameState, dealt: seq<Card>, skip: bool)
    requires Consistent(g, dealt) && |g.players| > 0
    ensures Consistent(AfterNextTurn(g, skip), dealt)
  {
  }

  // ---------------------------------------------------------------------------
  // handlePlayCard

  /** What playing a card needs: the player, the card and a top card exist. */
  predicate CanPlay(g: GameState, playerIndex: int, cardIndex: int) {
    && 0 <= playerIndex < |g.players| && 0 <= cardIndex < |g.players[playerIndex].hand|
    && |g.discardPile| > 0
  }

  function CardAt(g: GameState, playerIndex: int, cardIndex: int): Card
    requires CanPlay(g, playerIndex, cardIndex)
  {
    g.players[playerIndex].hand[cardIndex]
  }

  /** Whether the card matches the top card or the colour in force. */
  predicate PlayIsValid(g: GameState, playerIndex: int, cardIndex: int)
    requires CanPlay(g, playerIndex, cardIndex)
  {
    IsValidMove(CardAt(g, playerIndex, cardIndex), Last(g.discardPile), g.activeColor)
  }

  /** A valid play that does not win leaves enough cards in the piles for its forced draws. */
  predicate EnoughToDraw(g: GameState, playerIndex: int, cardIndex: int)
    requires CanPlay(g, playerIndex, cardIndex)
  {
    (PlayIsValid(g, playerIndex, cardIndex) && |g.players[playerIndex].hand| > 1)
      ==> DrawCount(CardAt(g, playerIndex, cardIndex).value) <= |g.deck| + |g.discardPile|
  }

  /** The seat that takes the forced draws: the next one in the direction before the play. */
  function DrawTarget(g: GameState): (t: int)
    requires |g.players| > 0
    ensures 0 <= t < |g.players|
  {
    NextIndex(g.currentPlayerIndex, g.direction, |g.players|, false)
  }

  /** The cards the forced draws of a play take, with the piles they leave. */
  function ForcedDrawsOf(g: GameState, card: Card, rands: seq<seq<nat>>): (Piles, seq<Card>)
    requires DrawCount(card.value) <= |g.deck| + |g.discardPile|
  {
    DrawMany(Piles(g.deck, g.discardPile + [card]), DrawCount(card.value), rands)
  }

  /**
   * The state update of `handlePlayCard` for a valid card: the card leaves
   * the hand for the discard pile and sets the colour. When the hand is
   * then empty the game is finished with that player as the winner.
   * Otherwise a REVERSE flips the direction unless there are two players,
   * and the next player in the old direction draws 2 for DRAW TWO and 4 for
   * WILD DRAW FOUR, one card at a time, refilling from the discard pile
   * with stream `rands[i]` at draw `i`. The turn itself is left to the
   * `nextTurn` that follows.
   */
  function HandlePlay(g: GameState, playerIndex: int, cardIndex: int, chosenColor: Option<CardColor>,
                      rands: seq<seq<nat>>): (h: GameState)
    requires CanPlay(g, playerIndex, cardIndex) && EnoughToDraw(g, playerIndex, cardIndex)
    requires PlayIsValid(g, playerIndex, cardIndex)
    ensures |h.players| == |g.players|
    ensures h.currentPlayerIndex == g.currentPlayerIndex && h.isThinking == g.isThinking
    ensures h.status == g.status || h.status == Finished
  {
    var card := CardAt(g, playerIndex, cardIndex);
    var n := |g.players|;
    var newPlayers := g.players[playerIndex := g.players[playerIndex].(hand := RemoveAt(g.players[playerIndex].hand, cardIndex))];
    var newActiveColor := NewActiveColor(card, chosenColor);
    if newPlayers[playerIndex].hand == [] then
      g.(players := newPlayers, discardPile := g.discardPile + [card], activeColor := newActiveColor,
         status := Finished, winner := Some(newPlayers[playerIndex]))
    else
      var target := DrawTarget(g);
      var (piles, drawn) := ForcedDrawsOf(g, card, rands);
      g.(players := newPlayers[target := newPlayers[target].(hand := newPlayers[target].hand + drawn)],
         deck := piles.deck, discardPile := piles.discard, activeColor := newActiveColor,
         direction := NewDirection(card.value, n, g.direction))
  }

  /**
   * `handlePlayCard(playerIndex, cardIndex, chosenColor)`: an invalid card
   * changes nothing; a valid one is played and the `nextTurn(isAction)` that
   * follows moves the turn, two seats for an action card, in the direction
   * after the play.
   */
  function AfterPlay(g: GameState, playerIndex: int, cardIndex: int, chosenColor: Option<CardColor>,
                     rands: seq<seq<nat>>): (h: GameState)
    requires CanPlay(g, playerIndex, cardIndex) && EnoughToDraw(g, playerIndex, cardIndex)
    ensures !PlayIsValid(g, playerIndex, cardIndex) ==> h == g
    ensures PlayIsValid(g, playerIndex, cardIndex) ==>
              var card := CardAt(g, playerIndex, cardIndex);
              && |h.players| == |g.players| && 0 <= h.currentPlayerIndex < |g.players| && !h.isThinking
              && h.direction
                 == (if |g.players[playerIndex].hand| == 1 then g.direction
                     else NewDirection(card.value, |g.players|, g.direction))
              && h.currentPlayerIndex == NextIndex(g.currentPlayerIndex, h.direction, |g.players|, IsAction(card.value))
  {
    if !PlayIsValid(g, playerIndex, cardIndex) then g
    else AfterNextTurn(HandlePlay(g, playerIndex, cardIndex, chosenColor, rands),
                       IsAction(CardAt(g, playerIndex, cardIndex).value))
  }

  /**
   * A valid card ends on top of the discard pile, the colour in force is its
   * colour or, for a wild card, the chosen one (RED when none), the number
   * of players is kept and the thinking flag is cleared.
   */
  lemma PlayTopCard(g: GameState, playerIndex: int, cardIndex: int, chosenColor: Option<CardColor>,
                    rands: seq<seq<nat>>)
    requires CanPlay(g, playerIndex, cardIndex) && EnoughToDraw(g, playerIndex, cardIndex)
    requires PlayIsValid(g, playerIndex, cardIndex)
    ensures var h := AfterPlay(g, playerIndex, cardIndex, chosenColor, rands);
            var card := CardAt(g, playerIndex, cardIndex);
            && |h.discardPile| > 0 && Last(h.discardPile) == card
            && h.activeColor == (if card.color.Wild? then (if chosenColor.Some? then chosenColor.value else Red) else card.color)
            && |h.players| == |g.players| && !h.isThinking
  {
  }

  /**
   * In a game in progress, a valid play finishes the game exactly when it
   * was the player's last card; the winner is that player, with an empty
   * hand, the other hands are untouched, no card is drawn, and the turn
   * still moves on.
   */
  lemma PlayWinsIffLastCard(g: GameState, playerIndex: int, cardIndex: int, chosenColor: Option<CardColor>,
                            rands: seq<seq<nat>>)
    requires CanPlay(g, playerIndex, cardIndex) && EnoughToDraw(g, playerIndex, cardIndex)
    requires PlayIsValid(g, playerIndex, cardIndex) && g.status == Playing
    ensures var h := AfterPlay(g, playerIndex, cardIndex, chosenColor, rands);
            && (h.status == Finished <==> |g.players[playerIndex].hand| == 1)
            && (h.status == Finished ==>
                  && h.winner == Some(g.players[playerIndex].(hand := []))
                  && h.players == g.players[playerIndex := g.players[playerIndex].(hand := [])]
                  && h.deck == g.deck && h.discardPile == g.discardPile + [CardAt(g, playerIndex, cardIndex)]
                  && h.currentPlayerIndex
                     == NextIndex(g.currentPlayerIndex, g.direction, |g.players|, IsAction(CardAt(g, playerIndex, cardIndex).value)))
            && (h.status != Finished ==> h.status == Playing && h.winner == g.winner)
  {
    var h0 := g.players[playerIndex].(hand := RemoveAt(g.players[playerIndex].hand, cardIndex));
    assert |h0.hand| == 0 <==> |g.players[playerIndex].hand| == 1;
  }

  /** With two or more seats in play, the next seat is another player's. */
  lemma NextSeatIsOther(cur: int, direction: int, n: int)
    requires n >= 2 && 0 <= cur < n && (direction == 1 || direction == -1)
    ensures NextIndex(cur, direction, n, false) != cur
  {
    if direction == 1 {
      if cur + 1 < n {
        ModUnique(cur + 1, n, 0, cur + 1);
      } else {
        ModUnique(cur + 1, n, 1, 0);
      }
    } else {
      if cur >= 1 {
        ModUnique(cur - 1, n, 0, cur - 1);
      } else {
        ModUnique(cur - 1, n, -1, n - 1);
      }
    }
  }

  /**
   * A valid play by the player whose turn it is, that does not win, takes the
   * card out of that hand, keeping the order of the others, and appends the
   * 2 or 4 forced draws to the hand of the next player in the old
   * direction; the other hands are untouched and every card stays in play.
   */
  lemma PlayForcedDraws(g: GameState, playerIndex: int, cardIndex: int, chosenColor: Option<CardColor>,
                        rands: seq<seq<nat>>)
    requires CanPlay(g, playerIndex, cardIndex) && EnoughToDraw(g, playerIndex, cardIndex)
    requires PlayIsValid(g, playerIndex, cardIndex)
    requires playerIndex == g.currentPlayerIndex && |g.players| >= 2 && (g.direction == 1 || g.direction == -1)
    requires |g.players[playerIndex].hand| > 1
    ensures var h := AfterPlay(g, playerIndex, cardIndex, chosenColor, rands);
            var card := CardAt(g, playerIndex, cardIndex);
            var t := DrawTarget(g);
            && t != playerIndex
            && h.players[playerIndex].hand == RemoveAt(g.players[playerIndex].hand, cardIndex)
            && h.players[t].hand == g.players[t].hand + ForcedDrawsOf(g, card, rands).1
            && |h.players[t].hand| == |g.players[t].hand| + DrawCount(card.value)
            && (forall k :: 0 <= k < |g.players| && k != t && k != playerIndex ==> h.players[k] == g.players[k])
            && Piles(h.deck, h.discardPile) == ForcedDrawsOf(g, card, rands).0
            && |h.deck| + |h.discardPile| == |g.deck| + |g.discardPile| + 1 - DrawCount(card.value)
  {
    NextSeatIsOther(g.currentPlayerIndex, g.direction, |g.players|);
  }

  /** With two players a card that is not an action card passes the turn to the other player. */
  lemma TwoPlayerPlainCardPasses(g: GameState, playerIndex: int, cardIndex: int, chosenColor: Option<CardColor>,
                                 rands: seq<seq<nat>>)
    requires CanPlay(g, playerIndex, cardIndex) && EnoughToDraw(g, playerIndex, cardIndex)
    requires PlayIsValid(g, playerIndex, cardIndex) && !IsAction(CardAt(g, playerIndex, cardIndex).value)
    requires |g.players| == 2 && 0 <= g.currentPlayerIndex < 2 && (g.direction == 1 || g.direction == -1)
    ensures AfterPlay(g, playerIndex, cardIndex, chosenColor, rands).currentPlayerIndex == 1 - g.currentPlayerIndex
    ensures AfterPlay(g, playerIndex, cardIndex, chosenColor, rands).direction == g.direction
  {
    NextSeatIsOther(g.currentPlayerIndex, g.direction, 2);
  }

  /** With two players every action card, REVERSE included, gives the same player another turn. */
  lemma TwoPlayerActionRepeatsTurn(g: GameState, playerIndex: int, cardIndex: int, chosenColor: Option<CardColor>,
                                   rands: seq<seq<nat>>)
    requires CanPlay(g, playerIndex, cardIndex) && EnoughToDraw(g, playerIndex, cardIndex)
    requires PlayIsValid(g, playerIndex, cardIndex) && IsAction(CardAt(g, playerIndex, cardIndex).value)
    requires |g.players| == 2 && 0 <= g.currentPlayerIndex < 2 && (g.direction == 1 || g.direction == -1)
    ensures AfterPlay(g, playerIndex, cardIndex, chosenColor, rands).currentPlayerIndex == g.currentPlayerIndex
    ensures AfterPlay(g, playerIndex, cardIndex, chosenColor, rands).direction == g.direction
  {
  }

  /**
   * With more than two players REVERSE flips the direction and, being an
   * action card, still skips: the turn moves two seats the other way.
   */
  lemma ReverseWithMorePlayers(g: GameState, playerIndex: int, cardIndex: int, chosenColor: Option<CardColor>,
                               rands: seq<seq<nat>>)
    requires CanPlay(g, playerIndex, cardIndex) && EnoughToDraw(g, playerIndex, cardIndex)
    requires PlayIsValid(g, playerIndex, cardIndex) && CardAt(g, playerIndex, cardIndex).value.Reverse?
    requires |g.players| > 2 && |g.players[playerIndex].hand| > 1
    ensures var h := AfterPlay(g, playerIndex, cardIndex, chosenColor, rands);
            && h.direction == -g.direction
            && h.currentPlayerIndex == (g.currentPlayerIndex - 2 * g.direction) % |g.players|
  {
  }

  /** The state update of a valid play keeps the invariant: in particular no card is lost or duplicated. */
  lemma HandlePlayKeeps(g: GameState, dealt: seq<Card>, playerIndex: int, cardIndex: int, chosenColor: Option<CardColor>,
                        rands: seq<seq<nat>>)
    requires Consistent(g, dealt) && g.status != Lobby
    requires CanPlay(g, playerIndex, cardIndex) && EnoughToDraw(g, playerIndex, cardIndex)
    requires PlayIsValid(g, playerIndex, cardIndex)
    ensures Consistent(HandlePlay(g, playerIndex, cardIndex, chosenColor, rands), dealt)
    ensures HandlePlay(g, playerIndex, cardIndex, chosenColor, rands).status != Lobby
  {
    var card := CardAt(g, playerIndex, cardIndex);
    if RemoveAt(g.players[playerIndex].hand, cardIndex) == [] {
      WinConserves(g.deck, g.discardPile, g.players, playerIndex, cardIndex, dealt);
    } else {
      PlayConserves(g.deck, g.discardPile, g.players, playerIndex, cardIndex, DrawTarget(g),
                    DrawCount(card.value), rands, dealt);
    }
  }

  /** Playing a card keeps the invariant. */
  lemma PlayKeeps(g: GameState, dealt: seq<Card>, playerIndex: int, cardIndex: int, chosenColor: Option<CardColor>,
                  rands: seq<seq<nat>>)
    requires Consistent(g, dealt) && g.status != Lobby
    requires CanPlay(g, playerIndex, cardIndex) && EnoughToDraw(g, playerIndex, cardIndex)
    ensures Consistent(AfterPlay(g, playerIndex, cardIndex, chosenColor, rands), dealt)
  {
    if PlayIsValid(g, playerIndex, cardIndex) {
      HandlePlayKeeps(g, dealt, playerIndex, cardIndex, chosenColor, rands);
      NextTurnKeeps(HandlePlay(g, playerIndex, cardIndex, chosenColor, rands), dealt,
                    IsAction(CardAt(g, playerIndex, cardIndex).value));
    }
  }

  // ---------------------------------------------------------------------------
  // onHumanCardClick and the colour picker

  /**
   * A click on card `index` of the human's hand, followed for a wild card by
   * the colour picker (`pick`, `None` when it is cancelled): outside the
   * human's turn nothing happens, an invalid card only changes the message,
   * and a cancelled pick plays nothing. The picker offers the four colours.
   */
  function AfterClick(g: GameState, index: int, pick: Option<CardColor>, rands: seq<seq<nat>>): (r: (ClickOutcome, GameState))
    requires pick.Some? ==> !pick.value.Wild?
    requires g.status == Playing && g.currentPlayerIndex == 0 ==> CanPlay(g, 0, index) && EnoughToDraw(g, 0, index)
    ensures r.0 == NotYourTurn <==> g.status != Playing || g.currentPlayerIndex != 0
    ensures r.0 == InvalidMove <==> g.status == Playing && g.currentPlayerIndex == 0 && !PlayIsValid(g, 0, index)
    ensures r.0 == ColorPickCancelled ==> CardAt(g, 0, index).color.Wild? && pick.None?
  {
    if g.status != Playing || g.currentPlayerIndex != 0 then (NotYourTurn, g)
    else if !PlayIsValid(g, 0, index) then (InvalidMove, g)
    else if CardAt(g, 0, index).color.Wild? then
      if pick.None? then (ColorPickCancelled, g) else (Played, AfterPlay(g, 0, index, pick, rands))
    else (Played, AfterPlay(g, 0, index, None, rands))
  }

  /**
   * A click plays a card exactly when it is the human's turn, the card is
   * valid and, for a wild card, a colour was picked; then the colour in
   * force is never WILD. Any other click leaves the game as it was.
   */
  lemma ClickPlaysIff(g: GameState, index: int, pick: Option<CardColor>, rands: seq<seq<nat>>)
    requires pick.Some? ==> !pick.value.Wild?
    requires g.status == Playing && g.currentPlayerIndex == 0 ==> CanPlay(g, 0, index) && EnoughToDraw(g, 0, index)
    ensures var (outcome, h) := AfterClick(g, index, pick, rands);
            && (outcome == Played <==>
                  && g.status == Playing && g.currentPlayerIndex == 0 && PlayIsValid(g, 0, index)
                  && (CardAt(g, 0, index).color.Wild? ==> pick.Some?))
            && (outcome != Played ==> h == g)
            && (outcome == Played ==> !h.activeColor.Wild? && Last(h.discardPile) == CardAt(g, 0, index))
  {
    var (outcome, h) := AfterClick(g, index, pick, rands);
    if outcome == Played {
      PlayTopCard(g, 0, index, if CardAt(g, 0, index).color.Wild? then pick else None, rands);
    }
  }

  lemma ClickKeeps(g: GameState, dealt: seq<Card>, index: int, pick: Option<CardColor>, rands: seq<seq<nat>>)
    requires Consistent(g, dealt)
    requires pick.Some? ==> !pick.value.Wild?
    requires g.status == Playing && g.currentPlayerIndex == 0 ==> CanPlay(g, 0, index) && EnoughToDraw(g, 0, index)
    ensures Consistent(AfterClick(g, index, pick, rands).1, dealt)
  {
    if g.status == Playing && g.currentPlayerIndex == 0 && PlayIsValid(g, 0, index) {
      PlayKeeps(g, dealt, 0, index, if CardAt(g, 0, index).color.Wild? then pick else None, rands);
    }
  }

  // ---------------------------------------------------------------------------
  // handleAICore

  /** The automated player acts: a game is on, it is not already thinking, and the turn is its. */
  predicate AIToMove(g: GameState)
    requires g.status == Playing ==> 0 <= g.currentPlayerIndex < |g.players|
  {
    g.status == Playing && !g.isThinking && g.players[g.currentPlayerIndex].kind == AI
  }

  /** The move the automated player makes with the oracle's `reply`. */
  function AIMoveOf(g: GameState, reply: OracleReply): (m: AIMove)
    requires 0 <= g.currentPlayerIndex < |g.players| && |g.discardPile| > 0
    ensures m.cardIndex.Some? ==> CanPlay(g, g.currentPlayerIndex, m.cardIndex.value)
  {
    GetAIMove(g.players[g.currentPlayerIndex].hand, Last(g.discardPile), g.activeColor, reply)
  }

  /** What a turn of the automated player needs: a consistent position and, when it plays, enough cards for the forced draws. */
  predicate AIReady(g: GameState, reply: OracleReply) {
    && (g.status == Playing ==> 0 <= g.currentPlayerIndex < |g.players| && |g.discardPile| > 0)
    && (g.status == Playing && AIToMove(g) && AIMoveOf(g, reply).cardIndex.Some? ==>
          EnoughToDraw(g, g.currentPlayerIndex, AIMoveOf(g, reply).cardIndex.value))
  }

  /**
   * `handleAICore`: unless the automated player is to move nothing happens;
   * otherwise it starts thinking and asks for a move; with no card it draws
   * one (`rand` for a refill) and passes, otherwise it plays the card.
   */
  function AfterAITurn(g: GameState, reply: OracleReply, rand: seq<nat>, rands: seq<seq<nat>>): (h: GameState)
    requires AIReady(g, reply)
    ensures |h.players| == |g.players|
  {
    if !AIToMove(g) then g
    else
      var thinking := g.(isThinking := true);
      var move := AIMoveOf(g, reply);
      if move.cardIndex.None? then AfterNextTurn(AfterDraw(thinking, g.currentPlayerIndex, rand), false)
      else AfterPlay(thinking, g.currentPlayerIndex, move.cardIndex.value, move.chosenColor, rands)
  }

  /**
   * The automated player's turn always ends: its card is always valid, so the
   * thinking flag is cleared on every path; a draw passes the turn to the
   * next player, and a play is `handlePlayCard` of the chosen card, with the
   * turn and direction that play gives.
   */
  lemma AITurnEnds(g: GameState, reply: OracleReply, rand: seq<nat>, rands: seq<seq<nat>>)
    requires AIReady(g, reply) && g.status == Playing && AIToMove(g)
    ensures var h := AfterAITurn(g, reply, rand, rands);
            var m := AIMoveOf(g, reply);
            && !h.isThinking
            && (m.cardIndex.None? ==>
                  var cur := g.currentPlayerIndex;
                  && h.currentPlayerIndex == NextIndex(cur, g.direction, |g.players|, false)
                  && h.players[cur].hand[..|g.players[cur].hand|] == g.players[cur].hand
                  && |h.players[cur].hand|
                     == |g.players[cur].hand| + (if CanDraw(Piles(g.deck, g.discardPile)) then 1 else 0)
                  && (forall k :: 0 <= k < |g.players| && k != cur ==> h.players[k] == g.players[k]))
            && (m.cardIndex.Some? ==>
                  var card := CardAt(g, g.currentPlayerIndex, m.cardIndex.value);
                  && PlayIsValid(g, g.currentPlayerIndex, m.cardIndex.value)
                  && h == AfterPlay(g.(isThinking := true), g.currentPlayerIndex, m.cardIndex.value, m.chosenColor, rands)
                  && Last(h.discardPile) == card
                  && h.direction
                     == (if |g.players[g.currentPlayerIndex].hand| == 1 then g.direction
                         else NewDirection(card.value, |g.players|, g.direction))
                  && h.currentPlayerIndex == NextIndex(g.currentPlayerIndex, h.direction, |g.players|, IsAction(card.value)))
  {
    var m := AIMoveOf(g, reply);
    var thinking := g.(isThinking := true);
    if m.cardIndex.Some? {
      PlayTopCard(thinking, g.currentPlayerIndex, m.cardIndex.value, m.chosenColor, rands);
    } else if CanDraw(Piles(g.deck, g.discardPile)) {
      DrawTakesOne(thinking, g.currentPlayerIndex, rand);
    }
  }

  /**
   * When the automated player is not to move (no game in progress, a move
   * already being worked out, or the human's turn) its turn changes nothing.
   */
  lemma AITurnWaits(g: GameState, reply: OracleReply, rand: seq<nat>, rands: seq<seq<nat>>)
    requires AIReady(g, reply)
    requires g.status != Playing || g.isThinking || g.players[g.currentPlayerIndex].kind == Human
    ensures AfterAITurn(g, reply, rand, rands) == g
  {
  }

  lemma AITurnKeeps(g: GameState, dealt: seq<Card>, reply: OracleReply, rand: seq<nat>, rands: seq<seq<nat>>)
    requires Consistent(g, dealt) && AIReady(g, reply)
    ensures Consistent(AfterAITurn(g, reply, rand, rands), dealt)
  {
    if g.status == Playing && AIToMove(g) {
      var thinking := g.(isThinking := true);
      var m := AIMoveOf(g, reply);
      if m.cardIndex.None? {
        DrawKeeps(thinking, dealt, g.currentPlayerIndex, rand);
        NextTurnKeeps(AfterDraw(thinking, g.currentPlayerIndex, rand), dealt, false);
      } else {
        PlayKeeps(thinking, dealt, g.currentPlayerIndex, m.cardIndex.value, m.chosenColor, rands);
      }
    }
  }

  // ---------------------------------------------------------------------------
  // The component

  /**
   * The component holding the game record (`game`, replaced as a whole by
   * each update) and, as a ghost, the deck the current game was dealt from.
   */
  class App {
    var game: GameState
    ghost var dealtFrom: seq<Card>

    ghost predicate Valid()
      reads this
    {
      Consistent(game, dealtFrom) && (game.status != Lobby ==> IsStandardDeck(dealtFrom))
    }

    constructor ()
      ensures Valid() && game == Welcome
    {
      game := Welcome;
      dealtFrom := [];
    }

    /**
     * `initGame`: a fresh shuffled deck with ids from `firstId` (`rand` for
     * the shuffle) is dealt. The shuffle whose result the seed loop
     * discards has no effect and is not modelled.
     */
    method InitGame(firstId: nat, rand: seq<nat>)
      modifies this
      ensures Valid() && IsStandardDeck(dealtFrom) && NoDuplicates(dealtFrom)
      ensures forall i :: 0 <= i < |dealtFrom| ==> firstId <= dealtFrom[i].id < firstId + 108
      ensures CanSeed(dealtFrom) && game == Deal(dealtFrom)
    {
      var generated := GenerateInitialDeck(firstId, rand);
      StandardDeckCanSeed(generated);
      var hand0 := generated[..HandSize];
      var hand1 := generated[HandSize..2 * HandSize];
      var rest := generated[2 * HandSize..];
      var players := [Player("p1", "You", Human, hand0), Player("ai", "Gemini Master", AI, hand1)];
      var fullDeck, firstCard := FlipSeed(rest);
      assert fullDeck == RotateRight(rest, TrailingWild(rest))[..|rest| - 1];
      DealConsistent(generated);
      game := GameState(players, fullDeck, [firstCard], 0, 1, firstCard.color, Playing, None, false);
      dealtFrom := generated;
    }

    /** `drawCard(playerIndex)`, with `rand` for a refill. */
    method DrawCard(playerIndex: int, rand: seq<nat>)
      requires Valid()
      requires game.status == Playing ==> 0 <= playerIndex < |game.players|
      modifies this
      ensures Valid() && dealtFrom == old(dealtFrom)
      ensures game == AfterDraw(old(game), playerIndex, rand)
    {
      if game.status != Playing {
        return;
      }
      if |game.deck| == 0 && |game.discardPile| <= 1 {
        return;
      }
      DrawKeeps(game, dealtFrom, playerIndex, rand);
      var piles, card := TakeCard(Piles(game.deck, game.discardPile), rand);
      var newPlayers := game.players[playerIndex := game.players[playerIndex].(hand := game.players[playerIndex].hand + [card])];
      game := game.(players := newPlayers, deck := piles.deck, discardPile := piles.discard);
    }

    /** `nextTurn(skip)`. */
    method NextTurn(skip: bool)
      requires Valid() && game.status != Lobby
      modifies this
      ensures Valid() && dealtFrom == old(dealtFrom)
      ensures game == AfterNextTurn(old(game), skip)
    {
      NextTurnKeeps(game, dealtFrom, skip);
      var step := game.direction * (if skip then 2 else 1);
      var nextIndex := JsRem(game.currentPlayerIndex + step, |game.players|);
      if nextIndex < 0 {
        nextIndex := nextIndex + |game.players|;
      }
      game := game.(currentPlayerIndex := nextIndex, isThinking := false);
    }

    /** `handlePlayCard(playerIndex, cardIndex, chosenColor)` and the `nextTurn(isAction)` it ends with. */
    method PlayCard(playerIndex: int, cardIndex: int, chosenColor: Option<CardColor>, rands: seq<seq<nat>>)
      requires Valid() && game.status != Lobby
      requires CanPlay(game, playerIndex, cardIndex) && EnoughToDraw(game, playerIndex, cardIndex)
      modifies this
      ensures Valid() && dealtFrom == old(dealtFrom)
      ensures game == AfterPlay(old(game), playerIndex, cardIndex, chosenColor, rands)
    {
      var card := game.players[playerIndex].hand[cardIndex];
      if !IsValidMove(card, Last(game.discardPile), game.activeColor) {
        return;
      }
      HandlePlayKeeps(game, dealtFrom, playerIndex, cardIndex, chosenColor, rands);
      var n := |game.players|;
      var newPlayers := game.players[playerIndex := game.players[playerIndex].(hand := RemoveAt(game.players[playerIndex].hand, cardIndex))];
      var newDiscard := game.discardPile + [card];
      var newActiveColor := NewActiveColor(card, chosenColor);
      if newPlayers[playerIndex].hand == [] {
        game := game.(players := newPlayers, discardPile := newDiscard, activeColor := newActiveColor,
                      status := Finished, winner := Some(newPlayers[playerIndex]));
      } else {
        var target := NextIndex(game.currentPlayerIndex, game.direction, n, false);
        var piles, targetHand := ForcedDraws(Piles(game.deck, newDiscard), newPlayers[target].hand, DrawCount(card.value), rands);
        game := game.(players := newPlayers[target := newPlayers[target].(hand := targetHand)],
                      deck := piles.deck, discardPile := piles.discard, activeColor := newActiveColor,
                      direction := NewDirection(card.value, n, game.direction));
      }
      NextTurn(IsAction(card.value));
    }

    /** `onHumanCardClick(index)`, then the colour picker for a wild card. */
    method HumanCardClick(index: int, pick: Option<CardColor>, rands: seq<seq<nat>>) returns (outcome: ClickOutcome)
      requires Valid()
      requires pick.Some? ==> !pick.value.Wild?
      requires game.status == Playing && game.currentPlayerIndex == 0 ==> CanPlay(game, 0, index) && EnoughToDraw(game, 0, index)
      modifies this
      ensures Valid() && dealtFrom == old(dealtFrom)
      ensures (outcome, game) == AfterClick(old(game), index, pick, rands)
    {
      if game.status != Playing || game.currentPlayerIndex != 0 {
        return NotYourTurn;
      }
      var card := game.players[0].hand[index];
      if !IsValidMove(card, Last(game.discardPile), game.activeColor) {
        return InvalidMove;
      }
      if card.color.Wild? {
        if pick.None? {
          return ColorPickCancelled;
        }
        PlayCard(0, index, pick, rands);
      } else {
        PlayCard(0, index, None, rands);
      }
      outcome := Played;
    }

    /** `handleAICore` with the oracle's `reply`, `rand` for a refill when drawing and `rands` for forced draws. */
    method AITurn(reply: OracleReply, rand: seq<nat>, rands: seq<seq<nat>>)
      requires Valid() && AIReady(game, reply)
      modifies this
      ensures Valid() && dealtFrom == old(dealtFrom)
      ensures game == AfterAITurn(old(game), reply, rand, rands)
    {
      if game.status != Playing || game.isThinking {
        return;
      }
      var cur := game.currentPlayerIndex;
      if game.players[cur].kind != AI {
        return;
      }
      var hand := game.players[cur].hand;
      var topCard := Last(game.discardPile);
      var move := GetAIMove(hand, topCard, game.activeColor, reply);
      game := game.(isThinking := true);
      if move.cardIndex.None? {
        DrawCard(cur, rand);
        NextTurn(false);
      } else {
        PlayCard(cur, move.cardIndex.value, move.chosenColor, rands);
      }
    }
  }
}
