/**
 * The GraphQL resolvers with logic of their own: validation of the `saveScore` mutation, the
 * id-or-name dispatch of the `pokemon` query, and the `generations` list. The other resolvers
 * only delegate to the data source or the score table.
 */
module Resolvers {
  import opened Wrappers
  import opened Domain
  import Config
  import Text
  import ScoreService

  /** The `saveScore` checks: the trimmed name must be 1 to 50 characters and the score
      within 0 to 1,000,000; the name is checked first. On success the arguments forwarded
      are the trimmed name and the unchanged score. */
  function ValidateSaveScore(name: string, score: int): (r: Result<(string, int), string>)
    ensures var t := Text.Trim(name);
      var nameOk := Config.MIN_NAME_LENGTH <= |t| <= Config.MAX_NAME_LENGTH;
      var scoreOk := Config.MIN_SCORE <= score <= Config.MAX_SCORE;
      && (r == Err(Config.INVALID_NAME_MESSAGE) <==> !nameOk)
      && (r == Err(Config.INVALID_SCORE_MESSAGE) <==> nameOk && !scoreOk)
      && (r.Ok? <==> nameOk && scoreOk)
      && (r.Ok? ==> r.value == (t, score))
  {
    var trimmed := Text.Trim(name);
    if trimmed == [] || |trimmed| < Config.MIN_NAME_LENGTH then Err(Config.INVALID_NAME_MESSAGE)
    else if |trimmed| > Config.MAX_NAME_LENGTH then Err(Config.INVALID_NAME_MESSAGE)
    else if score < Config.MIN_SCORE || score > Config.MAX_SCORE then Err(Config.INVALID_SCORE_MESSAGE)
    else Ok((trimmed, score))
  }

  /** A name accepted by `saveScore` is non-blank, at most 50 characters, and already trimmed,
      so the score table's own trimming does not change it again. */
  lemma AcceptedNameIsTrimmed(name: string, score: int)
    requires ValidateSaveScore(name, score).Ok?
    ensures var n := ValidateSaveScore(name, score).value.0;
      && 1 <= |n| <= 50
      && !Text.IsWhitespace(n[0]) && !Text.IsWhitespace(n[|n| - 1])
      && Text.Trim(n) == n
  {
    var n := Text.Trim(name);
    assert ValidateSaveScore(name, score).value.0 == n;
    assert 1 <= |n| <= 50;
    Text.TrimmedEnds(name);
    Text.TrimIdempotent(name);
    assert Text.Trim(n) == n;
  }

  /** A name that is blank is refused whatever the score, including an invalid one. */
  lemma BlankNameRefusedFirst(name: string, score: int)
    requires Text.AllWhitespace(name)
    ensures ValidateSaveScore(name, score) == Err(Config.INVALID_NAME_MESSAGE)
  {
    Text.TrimEmptyIffBlank(name);
  }

  /** Why the `saveScore` mutation failed: a validation message, or the table's error. */
  datatype MutationError = Invalid(message: string) | StoreFailed(error: AppError)

  /** `Mutation.saveScore`: validates, then saves the trimmed name and the score. An invalid
      input leaves the table untouched. */
  method SaveScore(store: ScoreService.ScoreStore, name: string, score: int, id: string, date: string,
                   write: ScoreService.WriteOutcome)
    returns (r: Result<UserScore, MutationError>)
    modifies store
    ensures var v := ValidateSaveScore(name, score);
      && (v.Err? ==> r == Err(Invalid(v.error)) && store.file == old(store.file))
      && (v.Ok? ==>
            var entry := UserScore(id, Text.Trim(name), score, date);
            store.file == ScoreService.AfterWrite(old(store.file), ScoreService.SavedTable(old(store.Loaded()), entry), write)
            && r == if write.Written? then Ok(entry) else Err(StoreFailed(DatabaseError(Config.SAVE_FAILED_MESSAGE))))
  {
    var v := ValidateSaveScore(name, score);
    if v.Err? {
      return Err(Invalid(v.error));
    }
    var (trimmed, s) := v.value;
    Text.TrimIdempotent(name);
    var saved := store.SaveScore(trimmed, s, id, date, write);
    match saved
    case Ok(entry) => r := Ok(entry);
    case Err(e) => r := Err(StoreFailed(e));
  }

  /** Which lookup the `pokemon` query makes. */
  datatype Lookup = ById(id: int) | ByName(name: string) | NoLookup

  /** `Query.pokemon`: the id when it is given and non-zero, else the name when it is given
      and non-empty, else no lookup at all (the answer is `null`). */
  function PokemonLookup(id: Option<int>, name: Option<string>): (r: Lookup)
    ensures r.ById? <==> id.Some? && id.value != 0
    ensures r.ById? ==> r.id == id.value
    ensures r.ByName? <==> (id.None? || id.value == 0) && name.Some? && name.value != []
    ensures r.ByName? ==> r.name == name.value
  {
    if id.Some? && id.value != 0 then ById(id.value)
    else if name.Some? && name.value != [] then ByName(name.value)
    else NoLookup
  }

  datatype Generation = Generation(id: int, name: string, start: int, end: int)

  /** `Query.generations`. */
  const GENERATIONS: seq<Generation> := [
    Generation(1, "Generation I", 1, 151),
    Generation(2, "Generation I-III", 1, 386),
    Generation(3, "All Generations", 1, 1025)]

  /** The advertised generations are exactly the ranges random draws use: ids 1 to 3, each
      with the start and end of that id's range. */
  lemma GenerationsMatchRanges()
    ensures |GENERATIONS| == 3
    ensures (set g | g in GENERATIONS :: g.id) == Config.GENERATION_RANGES.Keys
    ensures forall i :: 0 <= i < |GENERATIONS| ==>
      GENERATIONS[i].id == i + 1 &&
      Config.GENERATION_RANGES[i + 1] == GenerationRange(GENERATIONS[i].start, GENERATIONS[i].end)
  {
    var ids := set g | g in GENERATIONS :: g.id;
    assert GENERATIONS[0].id == 1 && GENERATIONS[1].id == 2 && GENERATIONS[2].id == 3;
    assert ids == {1, 2, 3};
  }
}
