/** The game constants of the back end and the front end configuration files. */
module Config {
  import opened Domain

  // Front end scoring and hints.
  const BASE_POINTS: nat := 100
  const DEFAULT_HINTS: nat := 3
  const DEFAULT_TIME_PER_QUESTION: nat := 30

  /** Declared by the back end, but no scoring rule applies it. */
  const MAX_STREAK_MULTIPLIER: nat := 10

  // High scores.
  const MAX_HIGH_SCORES: nat := 100
  const DEFAULT_HIGH_SCORES_DISPLAY: nat := 10

  // Score submission limits.
  const MIN_SCORE: int := 0
  const MAX_SCORE: int := 1000000
  const MIN_NAME_LENGTH: nat := 1
  const MAX_NAME_LENGTH: nat := 50

  const INVALID_NAME_MESSAGE: string := "Name is required and must be between 1-50 characters"
  const INVALID_SCORE_MESSAGE: string := "Score must be a positive number"
  const SAVE_FAILED_MESSAGE: string := "Failed to save score"

  /** Pokédex id range of each difficulty (generation) id. */
  const GENERATION_RANGES: map<int, GenerationRange> := map[
    1 := GenerationRange(1, 151),
    2 := GenerationRange(1, 386),
    3 := GenerationRange(1, 1025)]
}
