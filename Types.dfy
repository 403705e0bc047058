/** The data model of the game: cards, players and the game status. */
module Types {

  datatype Option<T> = None | Some(value: T)

  /** The four chromatic colours and the colourless wild marker. */
  datatype CardColor = Red | Green | Blue | Yellow | Wild

  /** Face values: the numbers 0-9, the three action values and the two wild values. */
  datatype CardValue =
    | Zero | One | Two | Three | Four | Five | Six | Seven | Eight | Nine
    | Skip | Reverse | DrawTwo
    | Wild | WildDrawFour

  /** A card: its identity `id` is distinct from its face (color, value). */
  datatype Card = Card(id: nat, color: CardColor, value: CardValue)

  datatype PlayerType = Human | AI

  /** A participant and the hand it holds, in order. */
  datatype Player = Player(id: string, name: string, kind: PlayerType, hand: seq<Card>)

  datatype GameStatus = Lobby | Playing | Finished
}
