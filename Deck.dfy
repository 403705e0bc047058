/** Building the 108-card deck and the Fisher-Yates shuffle. */
module Deck {
  import opened Types
  import opened Counting

  const Colors: seq<CardColor> := [Red, Green, Blue, Yellow]
  const NumberValues: seq<CardValue> := [Zero, One, Two, Three, Four, Five, Six, Seven, Eight, Nine]
  const ActionValues: seq<CardValue> := [Skip, Reverse, DrawTwo]

  /** The number of cards of each face in a standard deck. */
  function StandardCount(c: CardColor, v: CardValue): nat {
    if c.Wild? then (if v.Wild? || v.WildDrawFour? then 4 else 0)
    else if v.Zero? then 1
    else if v.Wild? || v.WildDrawFour? then 0
    else 2
  }

  function HasFace(c: CardColor, v: CardValue): Card -> bool {
    (x: Card) => x.color == c && x.value == v
  }

  predicate IsWildColored(x: Card) {
    x.color.Wild?
  }

  /** How many cards of `s` show the face (c, v). */
  function FaceCount(s: seq<Card>, c: CardColor, v: CardValue): nat {
    CountIf(s, HasFace(c, v))
  }

  /** How many cards of `s` are of colour WILD. */
  function WildCount(s: seq<Card>): nat {
    CountIf(s, IsWildColored)
  }

  predicate NoDuplicates<T(==)>(s: seq<T>) {
    forall i, j :: 0 <= i < |s| && 0 <= j < |s| && i != j ==> s[i] != s[j]
  }

  /**
   * A standard deck: 108 cards with the standard multiplicity of every
   * face, eight of them wild.
   */
  ghost predicate IsStandardDeck(s: seq<Card>) {
    && |s| == 108
    && (forall c, v :: FaceCount(s, c, v) == StandardCount(c, v))
    && WildCount(s) == 8
  }

  lemma CountsPush(s: seq<Card>, x: Card)
    ensures forall c, v :: FaceCount(s + [x], c, v) == FaceCount(s, c, v) + (if x.color == c && x.value == v then 1 else 0)
    ensures WildCount(s + [x]) == WildCount(s) + (if x.color.Wild? then 1 else 0)
  {
    forall c, v
      ensures FaceCount(s + [x], c, v) == FaceCount(s, c, v) + (if x.color == c && x.value == v then 1 else 0)
    {
      CountIfPush(s, x, HasFace(c, v));
    }
    CountIfPush(s, x, IsWildColored);
  }

  /** Every face count and the wild count are the same for two permutations of one deck. */
  lemma CountsPerm(a: seq<Card>, b: seq<Card>)
    requires multiset(a) == multiset(b)
    ensures forall c, v :: FaceCount(a, c, v) == FaceCount(b, c, v)
    ensures WildCount(a) == WildCount(b)
  {
    forall c, v ensures FaceCount(a, c, v) == FaceCount(b, c, v) {
      CountIfPerm(a, b, HasFace(c, v));
    }
    CountIfPerm(a, b, IsWildColored);
  }

  function ColorRank(c: CardColor): (r: int)
    ensures -1 <= r < 4
    ensures 0 <= r ==> Colors[r] == c
    ensures r == -1 <==> c.Wild?
  {
    match c
    case Red => 0
    case Green => 1
    case Blue => 2
    case Yellow => 3
    case Wild => -1
  }

  function NumberRank(v: CardValue): (r: int)
    ensures -1 <= r < 10
    ensures 0 <= r ==> NumberValues[r] == v
  {
    match v
    case Zero => 0
    case One => 1
    case Two => 2
    case Three => 3
    case Four => 4
    case Five => 5
    case Six => 6
    case Seven => 7
    case Eight => 8
    case Nine => 9
    case _ => -1
  }

  function ActionRank(v: CardValue): (r: int)
    ensures -1 <= r < 3
    ensures 0 <= r ==> ActionValues[r] == v
  {
    match v
    case Skip => 0
    case Reverse => 1
    case DrawTwo => 2
    case _ => -1
  }

  /** Card ids are fresh: `firstId` plus the card's position in the deck being built. */
  ghost predicate IdsFrom(deck: seq<Card>, firstId: nat) {
    forall i :: 0 <= i < |deck| ==> deck[i].id == firstId + i
  }

  /** Face counts once the first `ci` colours are complete. */
  ghost function DoneCount(ci: int, c: CardColor, v: CardValue): nat {
    if 0 <= ColorRank(c) < ci then StandardCount(c, v) else 0
  }

  /** `deck.push(createCard(color, value))`, the card's id being the next fresh one. */
  method PushCard(deck: seq<Card>, firstId: nat, color: CardColor, value: CardValue) returns (d: seq<Card>)
    requires IdsFrom(deck, firstId)
    ensures d == deck + [Card(firstId + |deck|, color, value)]
    ensures IdsFrom(d, firstId)
    ensures forall c, v :: FaceCount(d, c, v) == FaceCount(deck, c, v) + (if c == color && v == value then 1 else 0)
    ensures WildCount(d) == WildCount(deck) + (if color.Wild? then 1 else 0)
  {
    var card := Card(firstId + |deck|, color, value);
    CountsPush(deck, card);
    d := deck + [card];
  }

  /** One round of a colour: the numbers ONE-NINE, then SKIP, REVERSE and DRAW_TWO. */
  method PushRound(deck: seq<Card>, firstId: nat, color: CardColor) returns (d: seq<Card>)
    requires IdsFrom(deck, firstId)
    ensures |d| == |deck| + 12 && IdsFrom(d, firstId)
    ensures forall c, v :: FaceCount(d, c, v) == FaceCount(deck, c, v)
              + (if c == color && (1 <= NumberRank(v) || 0 <= ActionRank(v)) then 1 else 0)
    ensures WildCount(d) == WildCount(deck) + (if color.Wild? then 12 else 0)
  {
    d := deck;
    for k := 1 to |NumberValues|
      invariant |d| == |deck| + (k - 1) && IdsFrom(d, firstId)
      invariant forall c, v :: FaceCount(d, c, v) == FaceCount(deck, c, v)
                  + (if c == color && 1 <= NumberRank(v) < k then 1 else 0)
      invariant WildCount(d) == WildCount(deck) + (if color.Wild? then k - 1 else 0)
    {
      assert NumberRank(NumberValues[k]) == k;
      d := PushCard(d, firstId, color, NumberValues[k]);
    }
    for k := 0 to |ActionValues|
      invariant |d| == |deck| + 9 + k && IdsFrom(d, firstId)
      invariant forall c, v :: FaceCount(d, c, v) == FaceCount(deck, c, v)
                  + (if c == color && (1 <= NumberRank(v) || 0 <= ActionRank(v) < k) then 1 else 0)
      invariant WildCount(d) == WildCount(deck) + (if color.Wild? then 9 + k else 0)
    {
      assert ActionRank(ActionValues[k]) == k;
      d := PushCard(d, firstId, color, ActionValues[k]);
    }
  }

  /** The cards of one chromatic colour: one ZERO, then two rounds. */
  method PushColor(deck: seq<Card>, firstId: nat, color: CardColor) returns (d: seq<Card>)
    requires IdsFrom(deck, firstId) && !color.Wild?
    ensures |d| == |deck| + 25 && IdsFrom(d, firstId)
    ensures forall c, v :: FaceCount(d, c, v) == FaceCount(deck, c, v) + (if c == color then StandardCount(c, v) else 0)
    ensures WildCount(d) == WildCount(deck)
  {
    d := PushCard(deck, firstId, color, Zero);
    for round := 0 to 2
      invariant |d| == |deck| + 1 + 12 * round && IdsFrom(d, firstId)
      invariant forall c, v :: FaceCount(d, c, v) == FaceCount(deck, c, v)
                  + (if c != color then 0
                     else if v.Zero? then 1
                     else if 1 <= NumberRank(v) || 0 <= ActionRank(v) then round
                     else 0)
      invariant WildCount(d) == WildCount(deck)
    {
      d := PushRound(d, firstId, color);
    }
  }

  /**
   * The deck before shuffling: the four colours in turn, then four times a
   * WILD and a WILD_DRAW_FOUR. Card ids are `firstId` plus the position.
   */
  method BuildDeck(firstId: nat) returns (deck: seq<Card>)
    ensures |deck| == 108
    ensures forall i :: 0 <= i < |deck| ==> deck[i].id == firstId + i
    ensures forall c, v :: FaceCount(deck, c, v) == StandardCount(c, v)
    ensures WildCount(deck) == 8
  {
    deck := [];
    for ci := 0 to |Colors|
      invariant |deck| == 25 * ci && IdsFrom(deck, firstId)
      invariant forall c, v :: FaceCount(deck, c, v) == DoneCount(ci, c, v)
      invariant WildCount(deck) == 0
    {
      assert ColorRank(Colors[ci]) == ci;
      deck := PushColor(deck, firstId, Colors[ci]);
    }
    for i := 0 to 4
      invariant |deck| == 100 + 2 * i && IdsFrom(deck, firstId)
      invariant forall c, v :: FaceCount(deck, c, v) == DoneCount(4, c, v) + (if c.Wild? && (v.Wild? || v.WildDrawFour?) then i else 0)
      invariant WildCount(deck) == 2 * i
    {
      deck := PushCard(deck, firstId, CardColor.Wild, CardValue.Wild);
      deck := PushCard(deck, firstId, CardColor.Wild, WildDrawFour);
    }
  }

  /**
   * The swap partner at step `i`: the random source is a stream of naturals,
   * reduced into [0, i] as `Math.floor(Math.random() * (i + 1))` is.
   */
  function Pick(rand: seq<nat>, i: nat): (j: nat)
    ensures j <= i
  {
    if i < |rand| then rand[i] % (i + 1) else 0
  }

  /** The elements at `i` and `j` trade places; every other position keeps its element. */
  function Swap<T>(s: seq<T>, i: nat, j: nat): (r: seq<T>)
    requires i < |s| && j < |s|
    ensures |r| == |s|
    ensures r[i] == s[j] && r[j] == s[i]
    ensures forall k :: 0 <= k < |s| && k != i && k != j ==> r[k] == s[k]
  {
    s[i := s[j]][j := s[i]]
  }

  /** A swap is a permutation that keeps distinct elements distinct. */
  lemma SwapPreserves<T>(s: seq<T>, i: nat, j: nat)
    requires i < |s| && j < |s|
    ensures multiset(Swap(s, i, j)) == multiset(s)
    ensures NoDuplicates(s) ==> NoDuplicates(Swap(s, i, j))
  {
    var r := Swap(s, i, j);
    if NoDuplicates(s) {
      forall p, q | 0 <= p < |r| && 0 <= q < |r| && p != q ensures r[p] != r[q] {
        var p' := if p == i then j else if p == j then i else p;
        var q' := if q == i then j else if q == j then i else q;
        assert r[p] == s[p'] && r[q] == s[q'];
      }
    }
  }

  /**
   * What the shuffle loop still does once it stands at index `i`: swap `i`
   * with its pick, then continue at `i - 1`, stopping before index 0.
   */
  function ShuffleSteps<T(==)>(s: seq<T>, rand: seq<nat>, i: int): (r: seq<T>)
    requires i < |s|
    ensures |r| == |s|
    decreases i
  {
    if i <= 0 then s
    else ShuffleSteps(Swap(s, i, Pick(rand, i)), rand, i - 1)
  }

  /** The remaining swaps permute `s` and keep distinct elements distinct. */
  lemma {:induction false} ShuffleStepsPermutes<T>(s: seq<T>, rand: seq<nat>, i: int)
    requires i < |s|
    ensures multiset(ShuffleSteps(s, rand, i)) == multiset(s)
    ensures NoDuplicates(s) ==> NoDuplicates(ShuffleSteps(s, rand, i))
    decreases i
  {
    if i > 0 {
      SwapPreserves(s, i, Pick(rand, i));
      ShuffleStepsPermutes(Swap(s, i, Pick(rand, i)), rand, i - 1);
    }
  }

  lemma ShuffleStep<T>(s: seq<T>, rand: seq<nat>, i: int)
    requires 0 < i < |s|
    ensures ShuffleSteps(s, rand, i) == ShuffleSteps(Swap(s, i, Pick(rand, i)), rand, i - 1)
  {
  }

  /** Fisher-Yates from the last index down to 1, on a copy of `s`. */
  function Shuffled<T(==)>(s: seq<T>, rand: seq<nat>): (r: seq<T>)
    ensures |r| == |s|
    ensures |s| <= 1 ==> r == s
  {
    ShuffleSteps(s, rand, |s| - 1)
  }

  /** A shuffle is a permutation, and of distinct elements one of distinct elements. */
  lemma ShufflePermutes<T>(s: seq<T>, rand: seq<nat>)
    ensures |Shuffled(s, rand)| == |s|
    ensures multiset(Shuffled(s, rand)) == multiset(s)
    ensures NoDuplicates(s) ==> NoDuplicates(Shuffled(s, rand))
  {
    ShuffleStepsPermutes(s, rand, |s| - 1);
  }

  /**
   * `shuffle`: copies the input into a fresh array and swaps in place; the
   * argument, a value, is left as it was.
   */
  method Shuffle<T(==)>(s: seq<T>, rand: seq<nat>) returns (r: seq<T>)
    ensures r == Shuffled(s, rand)
  {
    var newArr := new T[|s|](k requires 0 <= k < |s| => s[k]);
    ghost var current := s;
    assert newArr[..] == current;
    var i := newArr.Length - 1;
    while i > 0
      invariant -1 <= i < newArr.Length == |current|
      invariant newArr[..] == current
      invariant ShuffleSteps(current, rand, i) == Shuffled(s, rand)
    {
      var j := Pick(rand, i);
      var t := newArr[i];
      newArr[i] := newArr[j];
      assert newArr[..] == current[i := current[j]];
      newArr[j] := t;
      assert newArr[..] == Swap(current, i, j);
      ShuffleStep(current, rand, i);
      current := Swap(current, i, j);
      assert ShuffleSteps(current, rand, i - 1) == Shuffled(s, rand);
      i := i - 1;
    }
    r := newArr[..];
  }

  /**
   * `generateInitialDeck`: the standard deck with fresh ids in
   * [firstId, firstId + 108), shuffled.
   */
  method GenerateInitialDeck(firstId: nat, rand: seq<nat>) returns (deck: seq<Card>)
    ensures IsStandardDeck(deck) && NoDuplicates(deck)
    ensures forall i :: 0 <= i < |deck| ==> firstId <= deck[i].id < firstId + 108
  {
    var built := BuildDeck(firstId);
    deck := Shuffle(built, rand);
    ShufflePermutes(built, rand);
    CountsPerm(built, deck);
    assert NoDuplicates(built);
    forall i | 0 <= i < |deck| ensures firstId <= deck[i].id < firstId + 108 {
      assert deck[i] in multiset(built);
    }
  }
}
