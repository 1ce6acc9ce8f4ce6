/** The records shared by the front end and the back end, and the back end's error classes. */
module Domain {
  import opened Wrappers

  datatype Stat = Stat(name: string, value: int)

  /** A Pokémon as the GraphQL API serves it. */
  datatype Pokemon = Pokemon(
    id: int,
    name: string,
    sprite: string,
    cryUrl: string,
    types: seq<string>,
    stats: seq<Stat>)

  /** No two Pokémon of the list share an id. */
  predicate DistinctIds(s: seq<Pokemon>) {
    forall i, j :: 0 <= i < j < |s| ==> s[i].id != s[j].id
  }

  /** One entry of the high-score table. */
  datatype UserScore = UserScore(id: string, name: string, score: int, date: string)

  /** The three hint categories, in the order the hint panel lists them. */
  datatype HintType = TypeHint | FirstLetter | Evolution

  datatype GenerationRange = GenerationRange(min: int, max: int)

  /** The back end's error classes: `PokemonNotFoundError`, `ValidationError`, `NetworkError`
      (with its optional HTTP status) and `DatabaseError`. */
  datatype AppError =
    | PokemonNotFoundError
    | ValidationError(message: string)
    | NetworkError(statusCode: Option<int>)
    | DatabaseError(message: string)
}
