/** The five games the bot knows, in the order its configuration lists them. */
module Games {

  datatype Game = Wordle | Connections | Framed | Gisnep | Bandle

  /** The configured display name, which the database layer uses as its game-type key. */
  function Name(g: Game): string {
    match g
    case Wordle => "Wordle"
    case Connections => "Connections"
    case Framed => "Framed"
    case Gisnep => "Gisnep"
    case Bandle => "Bandle"
  }

  /** Configuration order: the order in which incoming messages are offered to the games. */
  const Registry: seq<Game> := [Wordle, Connections, Framed, Gisnep, Bandle]

  /** Every game is configured exactly once, and names tell games apart. */
  lemma RegistryIsComplete()
    ensures forall g: Game :: g in Registry
    ensures forall i, j :: 0 <= i < j < |Registry| ==> Registry[i] != Registry[j]
    ensures forall g, h: Game :: Name(g) == Name(h) ==> g == h
  {
    forall g: Game ensures g in Registry {
      match g
      case Wordle => assert Registry[0] == g;
      case Connections => assert Registry[1] == g;
      case Framed => assert Registry[2] == g;
      case Gisnep => assert Registry[3] == g;
      case Bandle => assert Registry[4] == g;
    }
  }
}
