# Who's That Pokémon? — a verified model of the quiz core

This project models, in Dafny, the logic of a Pokémon guessing game: a React front end that
asks "who's that Pokémon?" with multiple-choice answers, a countdown and hints, and a GraphQL
back end that proxies the public PokéAPI and keeps a high-score file.

What is modelled, module by module:

- `QuizGame` (`frontend/src/hooks/useQuizGame.ts`): the game record and its updates (answer
  scoring with an uncapped streak multiplier, hint spending, advancing and ending), the
  batched collection of distinct random Pokémon for one question (batches of
  `min(2 × missing, 10)` draws; a new batch starts only while fewer than 50 draws were made, so
  one load makes at most 59), the Fisher–Yates shuffle of the choices, and the `isLoadingRef`
  in-flight flag with its abort paths. The class `QuizGame.Game` holds the hook's state;
  the fetching part of `loadQuestion` (`FetchQuestion`) is proved against the specification
  function `LoadEnding`, whose properties (`LoadEndingSound`) are proved separately, and
  `LoadQuestion` sets the flags, error and question from that ending.
- `Countdown` (`frontend/src/hooks/useTimer.ts`): the timer as a class with start, pause,
  reset, a change of the `onTimeUp` callback, and one `Tick` per interval firing.
- `Hints` (`frontend/src/hooks/useHints.ts`): the set of revealed hint types and the hint text.
- `ScoreService` (`backend/src/services/ScoreService.ts`): the high-score file as a field of a
  class, the stable descending sort, truncation to 100 entries and the queries.
- `Resolvers` (`backend/src/schema/resolvers.ts`): `saveScore` validation and forwarding, the
  id-or-name dispatch of the `pokemon` query, the `generations` list.
- `PokeApi` (`backend/src/datasources/ConfigurablePokeAPI.ts`): backend selection, the
  response-to-`Pokemon` mapping, random ids inside a generation, HTTP status to error mapping,
  list-entry URL parsing and list assembly.
- `Env` (`backend/src/utils/validateEnv.ts`): the start-up environment check.
- `EndScreen`, `TimerDisplay`, `MultipleChoice`, `HintPanel`: the presentation rules of the
  corresponding components (grades, `m:ss` text and timer class, answer button classes, hint
  button guard and classes).
- Support modules: `Wrappers` (`Option`, `Result`), `Text` (the JavaScript string operations the
  code relies on: `trim`, `parseInt`, `split`, `join`, `padStart`, number rendering and
  first-letter capitalisation), `Domain` (shared records and the back end's error classes as
  one datatype) and `Config` (the constants of `backend/src/config/constants.ts` and
  `frontend/src/config/constants.ts`).

Inputs the code takes from the outside world are parameters of the model: the results of the
random-Pokémon requests of one load (`draws`, indexed by request number), the shuffle's random
indices (`picks`, with `picks[i] ≤ i`), the abort signal (`abortAfter`: aborted at every check
made after that many batches), `Math.random()` for a random id (a real `u` in `[0, 1)`), HTTP
replies, whether a file write succeeds, the new score's id and date, and the environment
variables.

Facts about the code that the model makes explicit:

- Three straight correct answers from a fresh game score 100 + 200 + 300 = 600
  (`QuizGame.ThreeCorrectFromFreshGame`): the multiplier is the streak before the answer plus
  one, so the first correct answer earns 100.
- On a timeout the game screen passes `null` and skips `checkAnswer`
  (`frontend/src/components/GameScreen/GameScreen.tsx:82`), so a timeout changes neither the
  streak nor the wrong-answer count; `QuizGame.Game.CheckAnswer` therefore always receives a
  Pokémon.
- `MAX_STREAK_MULTIPLIER` (10) is declared and never applied
  (`QuizGame.StreakMultiplierUncapped`).

## Model

| member | source | states |
|---|---|---|
| Text.TrimStart | backend/src/schema/resolvers.ts:84 | the result is a suffix of the input, everything removed is whitespace, and it does not start with whitespace |
| Text.TrimEnd | backend/src/schema/resolvers.ts:84 | the result is a prefix of the input, everything removed is whitespace, and it does not end with whitespace |
| Text.Trim | backend/src/schema/resolvers.ts:84 | `trim()`: never longer than the input, and neither end of the result is whitespace |
| Text.TrimInfix | backend/src/schema/resolvers.ts:84 | the trimmed string is the input's slice starting at the number of leading characters removed, with only whitespace before and after it |
| Text.TrimEmptyIffBlank | backend/src/schema/resolvers.ts:86 | trimming gives the empty string exactly when the input is all whitespace |
| Text.TrimIdempotent | backend/src/services/ScoreService.ts:70 | trimming an already trimmed name changes nothing, so the table's second trim keeps the resolver's name |
| Text.DecimalString | frontend/src/components/Timer/Timer.tsx:11 | number rendering: at least one digit, only digits, no leading zero, one digit exactly below 10 |
| Text.DecimalRoundTrip | frontend/src/components/Timer/Timer.tsx:11 | reading the digits of a rendered number gives the number back |
| Text.ParseInt | backend/src/utils/validateEnv.ts:18 | `parseInt`: a blank string gives `NaN`, and a negative result needs a minus sign in the input |
| Text.ParseIntOfDecimal | backend/src/utils/validateEnv.ts:18 | `parseInt` of a rendered non-negative number is that number |
| Text.ParseIntOfDigits | backend/src/utils/validateEnv.ts:18 | `parseInt` of a plain non-empty digit string is its decimal value |
| Text.Split | backend/src/datasources/ConfigurablePokeAPI.ts:201 | `split` gives at least one part, and a string without the separator is a single part |
| Text.SplitAppend | backend/src/datasources/ConfigurablePokeAPI.ts:201 | splitting `a + sep + b` is splitting `a` followed by splitting `b` |
| Text.Join | frontend/src/hooks/useHints.ts:27 | `join`: empty for no parts, the part itself for one, and the total length plus one separator between neighbours |
| Text.JoinPartAt | frontend/src/hooks/useHints.ts:27 | part `i` occupies the joined string from its offset (earlier parts plus one separator each) |
| Text.JoinSepAfter | frontend/src/hooks/useHints.ts:27 | the separator sits between the end of part `i` and the start of part `i + 1` |
| Text.JoinPlacesParts | frontend/src/hooks/useHints.ts:27 | the joined string holds every part at its offset, in order, with the separator between neighbours |
| Text.JoinSplitRoundTrip | frontend/src/hooks/useHints.ts:27 | joining with a one-character separator that no part contains and splitting at it gives the parts back |
| Text.PadTwo | frontend/src/components/Timer/Timer.tsx:11 | `padStart(2, '0')`: at least two characters, the input at the end, only zeros before it |
| Text.CapitalizeFirst | backend/src/datasources/ConfigurablePokeAPI.ts:219 | same length; the first character upper-cased, the rest unchanged |
| QuizGame.Answered | frontend/src/hooks/useQuizGame.ts:206-227 | a correct answer adds `100 × (streak + 1)`, increments the streak and the correct count; a wrong one zeroes the streak and increments the wrong count; nothing else changes |
| QuizGame.HintSpent | frontend/src/hooks/useQuizGame.ts:252-262 | a hint is spent exactly when some remain; one unit moves from remaining to used, the sum is kept, and otherwise nothing changes |
| QuizGame.FreshGameIsSound | frontend/src/hooks/useQuizGame.ts:19-28 | the starting record satisfies the score invariant and holds the three default hints |
| QuizGame.AnsweredKeepsScoreInvariant | frontend/src/hooks/useQuizGame.ts:206-227 | every answer keeps streak ≤ correct answers and `100 × correct ≤ score ≤ 100 × (1 + … + correct)` |
| QuizGame.CorrectRunScore | frontend/src/hooks/useQuizGame.ts:209-218 | `n` correct answers from streak `s` add `100 × (n·s + n(n+1)/2)` and raise the streak by `n` |
| QuizGame.ThreeCorrectFromFreshGame | frontend/src/hooks/useQuizGame.ts:209-218 | three correct answers from a fresh game score 600 |
| QuizGame.StreakMultiplierUncapped | frontend/src/hooks/useQuizGame.ts:210 | with a streak of 10 the next correct answer earns more than `MAX_STREAK_MULTIPLIER × 100` |
| QuizGame.WrongAnswerAfterStreak | frontend/src/hooks/useQuizGame.ts:219-225 | a wrong answer after a streak of 5 zeroes the streak, keeps the score and counts one more wrong answer |
| QuizGame.Batch | frontend/src/hooks/useQuizGame.ts:121-129 | a batch is the next `size` request results in order |
| QuizGame.BatchSize | frontend/src/hooks/useQuizGame.ts:116-118 | a batch asks for between 2 and 10 draws and at most twice the number still missing |
| QuizGame.Absorb | frontend/src/hooks/useQuizGame.ts:133-149 | processing a batch adds at most one Pokémon per result and never passes the number needed |
| QuizGame.AbsorbSound | frontend/src/hooks/useQuizGame.ts:133-149 | processing a batch only appends to the held list, keeps ids distinct, and appends only Pokémon present in the batch |
| QuizGame.AbsorbBatch | frontend/src/hooks/useQuizGame.ts:133-149 | the inner loop computes `Absorb`, and `usedIds` stays the id set of the collected list |
| QuizGame.Gather | frontend/src/hooks/useQuizGame.ts:109-150 | the batch loop as a function: it stops only with enough Pokémon or at least 50 attempts, and gives up (`None`) only under an abort; it extends the held list, keeps ids distinct, stays within the number needed and within 59 attempts, and holds only drawn Pokémon |
| QuizGame.CollectRound | frontend/src/hooks/useQuizGame.ts:115-149 | one loop pass: `usedIds` stays the collected ids, attempts grow, one more batch, and what the loop will still collect is unchanged |
| QuizGame.CollectUnique | frontend/src/hooks/useQuizGame.ts:102-150 | the batch loop reports an abort exactly when the collection specification sees one, and otherwise ends in its state |
| QuizGame.GatherSound | frontend/src/hooks/useQuizGame.ts:109-150 | a finished collection has distinct ids, at most the number needed, only drawn Pokémon, at least 50 attempts when short, never more than 59 attempts |
| QuizGame.GatherWithoutAbort | frontend/src/hooks/useQuizGame.ts:109-150 | without an abort signal the collection always finishes |
| QuizGame.GatherSameIdStaysSmall | frontend/src/hooks/useQuizGame.ts:139-141 | when every draw answers with one id, a collection started empty holds at most one Pokémon |
| QuizGame.SameIdDrawsFail | frontend/src/hooks/useQuizGame.ts:153-157 | if every draw returns the same Pokémon, a question of two or more choices fails to load |
| QuizGame.Swap | frontend/src/hooks/useQuizGame.ts:12 | the swap exchanges positions `i` and `j` and keeps every other element |
| QuizGame.SwapPermutes | frontend/src/hooks/useQuizGame.ts:12 | a swap keeps the multiset and distinct ids |
| QuizGame.Shuffled | frontend/src/hooks/useQuizGame.ts:10-13 | the shuffle steps keep the length |
| QuizGame.ShuffledPermutes | frontend/src/hooks/useQuizGame.ts:8-15 | the shuffle is a permutation and keeps ids distinct |
| QuizGame.ShuffleArray | frontend/src/hooks/useQuizGame.ts:8-15 | the in-place descending swap loop over a copy computes the shuffle and returns a permutation of its input |
| QuizGame.FirstOccursOnce | frontend/src/hooks/useQuizGame.ts:165-167 | in a list with distinct ids the first element occurs exactly once |
| QuizGame.CollectedQuestionSound | frontend/src/hooks/useQuizGame.ts:164-173 | the question built from a full collection is well formed, its answer is the first Pokémon collected and occurs once, and its choices are a permutation of the collection |
| QuizGame.LoadEnding | frontend/src/hooks/useQuizGame.ts:153-196 | a cancellation needs an abort signal; a failure reports fewer than needed after at least 50 attempts; a success has exactly the needed number of choices |
| QuizGame.FetchQuestion | frontend/src/hooks/useQuizGame.ts:95-173 | the abort checks, the batch loop and the shuffle compute the ending `LoadEnding` specifies |
| QuizGame.GatheredQuestionSound | frontend/src/hooks/useQuizGame.ts:164-173 | a question built from a full collection of drawn Pokémon is well formed, holds the answer once, and offers only Pokémon from the first 59 draws |
| QuizGame.LoadEndingSound | frontend/src/hooks/useQuizGame.ts:95-196 | a successful load yields a well-formed question of drawn Pokémon with the answer once; a failure has fewer than needed after 50 to 59 attempts; a cancellation needs an abort |
| QuizGame.Game.constructor | frontend/src/hooks/useQuizGame.ts:19-46 | a fresh record, no question, not loading, no error, flag clear |
| QuizGame.Game.LoadQuestion | frontend/src/hooks/useQuizGame.ts:83-199 | with the flag set nothing happens; otherwise the ending decides: success sets the question and clears flag and loading, failure sets the error and clears both, an abort before the loop or in the error path clears the flag, an abort at the loop head or before setting the question leaves it set |
| QuizGame.Game.StartGame | frontend/src/hooks/useQuizGame.ts:50-73 | the record is reset; with the flag set the load is skipped and the flags are kept; otherwise per ending: success sets the question and clears flag and loading, failure sets the error and clears both, a cancellation keeps loading set and clears the flag only on the paths that reset it |
| QuizGame.Game.EndGame | frontend/src/hooks/useQuizGame.ts:75-81 | sets game over and clears the question, nothing else |
| QuizGame.Game.CheckAnswer | frontend/src/hooks/useQuizGame.ts:201-230 | without a question returns false and changes nothing; otherwise compares ids with the answer and applies `Answered` |
| QuizGame.EndsGame | frontend/src/hooks/useQuizGame.ts:239-240 | the game ends exactly when the old index + 1 reaches the question count, so always for a count of at most one |
| QuizGame.Game.NextQuestion | frontend/src/hooks/useQuizGame.ts:232-250 | advances the index; when `EndsGame` holds the game is over, the question cleared and the flags untouched; otherwise a load runs, skipped with the flags kept when one is in flight, else with question, error, flag and loading set per ending as in `StartGame` |
| QuizGame.Game.UseHint | frontend/src/hooks/useQuizGame.ts:252-262 | applies `HintSpent`; the question, loading flags and error are untouched |
| Countdown.Timer.constructor | frontend/src/hooks/useTimer.ts:15-18 | starts stopped with the full time and the supplied callback |
| Countdown.Timer.SetOnTimeUp | frontend/src/hooks/useTimer.ts:37-39 | a new callback replaces the referenced one and nothing else changes |
| Countdown.Timer.Start | frontend/src/hooks/useTimer.ts:20-22 | only raises the running flag, so starting twice is starting once |
| Countdown.Timer.Pause | frontend/src/hooks/useTimer.ts:24-30 | stops the timer and keeps the remaining time |
| Countdown.Timer.Reset | frontend/src/hooks/useTimer.ts:32-35 | stops the timer and restores the full time |
| Countdown.Timer.Tick | frontend/src/hooks/useTimer.ts:41-55 | no effect unless running with time left; above one second counts down by one; at one second or less sets 0, stops, and invokes the current callback once |
| Countdown.RunCountdown | frontend/src/hooks/useTimer.ts:18-55 | after a start and a callback change, `t` ticks run the latest callback exactly once when `0 < initialTime ≤ t`, and leave `max(initialTime − t, 0)` |
| Hints.HintTracker.constructor | frontend/src/hooks/useHints.ts:5 | nothing revealed |
| Hints.HintTracker.RevealHint | frontend/src/hooks/useHints.ts:7-18 | succeeds exactly with budget left and the type not yet revealed, then adds exactly that type; never touches the budget |
| Hints.HintTracker.ResetHints | frontend/src/hooks/useHints.ts:37-39 | empties the revealed set |
| Hints.HintTracker.HintValue | frontend/src/hooks/useHints.ts:20-35 | nothing without a Pokémon or for an unrevealed type, otherwise the hint text |
| Hints.HintTracker.IsHintRevealed | frontend/src/hooks/useHints.ts:41-43 | true exactly when the type is in the revealed set; a hidden type means fewer than three are revealed, so with budget left more can be revealed |
| Hints.HintTracker.CanRevealMore | frontend/src/hooks/useHints.ts:51 | true exactly when budget is left and some type is still hidden |
| Hints.HintText | frontend/src/hooks/useHints.ts:25-34 | the type hint is exactly `Join(types, " / ")` (a single type as is, its length the types plus 3 per separator); the first character of the name (none for an empty name); or "Base Form" |
| Hints.TypeHintOfTwoTypes | frontend/src/hooks/useHints.ts:27 | two types show as the first, " / ", then the second |
| Hints.FewerThanThreeLeavesOneHidden | frontend/src/hooks/useHints.ts:51 | fewer than three revealed types is the same as some type still hidden |
| Hints.RevealTwice | frontend/src/hooks/useHints.ts:12-17 | the second reveal of the same type fails and only that type is revealed |
| ScoreService.InsertLast | backend/src/services/ScoreService.ts:76-79 | inserting makes the table one longer |
| ScoreService.InsertLastPermutes | backend/src/services/ScoreService.ts:76-79 | inserting keeps every entry and adds the new one (as multisets) |
| ScoreService.InsertLastSorted | backend/src/services/ScoreService.ts:79 | inserting into a sorted table keeps it sorted |
| ScoreService.InsertLastPosition | backend/src/services/ScoreService.ts:76-79 | in a sorted table the new entry lands behind every entry scoring at least as much |
| ScoreService.SortByScore | backend/src/services/ScoreService.ts:79 | the sort is non-increasing by score and a permutation |
| ScoreService.SortIsStable | backend/src/services/ScoreService.ts:79 | entries of equal score keep their stored order |
| ScoreService.SortKeepsCounts | backend/src/services/ScoreService.ts:79 | sorting keeps the number of entries at or above every score |
| ScoreService.NewEntryRank | backend/src/services/ScoreService.ts:76-79 | the new entry is placed after every older entry with a score at least its own, the others in sorted order |
| ScoreService.Take | backend/src/services/ScoreService.ts:82 | `slice(0, n)`: the first `min(n, length)` entries |
| ScoreService.SliceTo | backend/src/services/ScoreService.ts:106 | `slice(0, end)`: a prefix; a negative end drops entries from the back |
| ScoreService.SavedTable | backend/src/services/ScoreService.ts:76-82 | the written table is sorted, one longer while under 100 entries and 100 after, and holds only stored entries and the new one |
| ScoreService.NewEntryKeptIffRoom | backend/src/services/ScoreService.ts:76-82 | the new entry is kept exactly when fewer than 100 stored entries score at least as much, with the entries ahead of it unchanged; otherwise the table is the old best 100 |
| ScoreService.ScoreStore.constructor | backend/src/services/ScoreService.ts:16 | the store starts with the given file content |
| ScoreService.ScoreStore.Loaded | backend/src/services/ScoreService.ts:21-34 | a missing or unreadable file reads as an empty table |
| ScoreService.AfterWrite | backend/src/services/ScoreService.ts:40-47 | a successful write holds the table; a write that failed before touching the file leaves it; one that failed after truncating leaves an unreadable file |
| ScoreService.ScoreStore.SaveScore | backend/src/services/ScoreService.ts:63-90 | a successful write stores the saved table and returns the new entry with the trimmed name; a failed write raises `DatabaseError("Failed to save score")` with the file as `AfterWrite` leaves it, which reads back as empty after a truncation |
| ScoreService.ScoreStore.GetHighScores | backend/src/services/ScoreService.ts:97-107 | the sorted table sliced to the limit, 10 by default, sorted, and nothing written |
| ScoreService.ScoreStore.GetScoreCount | backend/src/services/ScoreService.ts:113-116 | the number of stored entries |
| ScoreService.ScoreStore.ClearScores | backend/src/services/ScoreService.ts:122-131 | true and an empty table exactly when the write succeeds; false otherwise, with the old file after an untouched failure and an empty read after a truncating one |
| Resolvers.ValidateSaveScore | backend/src/schema/resolvers.ts:84-99 | `INVALID_NAME` exactly when the trimmed name is empty or over 50, else `INVALID_SCORE` exactly when the score is outside `[0, 1000000]`, else the trimmed name and the unchanged score |
| Resolvers.AcceptedNameIsTrimmed | backend/src/schema/resolvers.ts:84-92 | an accepted name has 1 to 50 characters, no whitespace at either end, and trims to itself |
| Resolvers.BlankNameRefusedFirst | backend/src/schema/resolvers.ts:84-99 | a blank name is refused with `INVALID_NAME` whatever the score |
| Resolvers.SaveScore | backend/src/schema/resolvers.ts:78-103 | invalid input leaves the file and reports the message; valid input saves the trimmed name with the score, the file and result following the write's outcome |
| Resolvers.PokemonLookup | backend/src/schema/resolvers.ts:23-29 | the id when non-zero, else the name when non-empty, else no lookup |
| Resolvers.GenerationsMatchRanges | backend/src/schema/resolvers.ts:51-65 | three generations with ids 1 to 3 whose ranges are those of `GENERATION_RANGES` |
| PokeApi.NewDataSource | backend/src/datasources/ConfigurablePokeAPI.ts:53-63 | mockoon mode: the env URL when set and non-empty, else `http://localhost:3001`, no agent; otherwise the public API with the agent |
| PokeApi.OrElse | backend/src/datasources/ConfigurablePokeAPI.ts:221-223 | `a \|\| b`: `a` when present and non-empty, else `b` |
| PokeApi.TransformPokemon | backend/src/datasources/ConfigurablePokeAPI.ts:216-230 | keeps the id, capitalises only the first letter, takes the artwork sprite when non-empty else the default, the latest then legacy cry else "", copies types and stats in order |
| PokeApi.ToStats | backend/src/datasources/ConfigurablePokeAPI.ts:225-228 | each stat keeps its name and base value, in order |
| PokeApi.RangeFor | backend/src/datasources/ConfigurablePokeAPI.ts:158-160 | a missing, zero or unknown generation id uses generation 1's range |
| PokeApi.RandomPokemonId | backend/src/datasources/ConfigurablePokeAPI.ts:157-162 | the id drawn lies within the chosen range |
| PokeApi.EveryIdReachable | backend/src/datasources/ConfigurablePokeAPI.ts:161 | every id of the range is drawn for some random value |
| PokeApi.ReplyToPokemon | backend/src/datasources/ConfigurablePokeAPI.ts:89-111 | 404 raises not-found, any other failed status a network error with that status, a thrown request or unparsable body gives null, success the transformed Pokémon |
| PokeApi.ListEntryId | backend/src/datasources/ConfigurablePokeAPI.ts:201 | a URL without '/' gives `NaN` |
| PokeApi.ListEntryIdOfEntryUrl | backend/src/datasources/ConfigurablePokeAPI.ts:201 | an entry URL ending in `/<id>/` gives that id |
| PokeApi.HitIndices | backend/src/datasources/ConfigurablePokeAPI.ts:206 | the positions of exactly the lookups that found a Pokémon, in increasing order |
| PokeApi.CollectList | backend/src/datasources/ConfigurablePokeAPI.ts:205-210 | one raised lookup error empties the list; otherwise the `k`-th Pokémon is the one found by the `k`-th successful lookup, so `null` results are dropped and order is kept |
| PokeApi.FoundAppend | backend/src/datasources/ConfigurablePokeAPI.ts:206 | filtering a concatenation filters each part |
| PokeApi.FoundAtHits | backend/src/datasources/ConfigurablePokeAPI.ts:206 | the non-null filter keeps exactly the hits, in order |
| PokeApi.NullLookupDropped | backend/src/datasources/ConfigurablePokeAPI.ts:206 | a `null` between two found Pokémon is dropped and both are kept in order |
| PokeApi.EntryLookups | backend/src/datasources/ConfigurablePokeAPI.ts:200-203 | one lookup per entry URL, in order, of the id parsed from it |
| PokeApi.PokemonList | backend/src/datasources/ConfigurablePokeAPI.ts:175-211 | a failed or unparsable list request gives the empty list; otherwise the lookups of the entries' ids collected as in `CollectList` |
| Env.Given | backend/src/utils/validateEnv.ts:18 | a variable counts as set only when present and non-empty |
| Env.PortOf | backend/src/utils/validateEnv.ts:18 | 4000 when PORT is unset or empty, else `parseInt(PORT)` |
| Env.ValidateEnv | backend/src/utils/validateEnv.ts:14-55 | all checks run; the errors are the bad port, bad mode and bad node environment in that order; any error throws with all of them, otherwise the values read are returned; a missing mock URL in mockoon mode only warns |
| Env.DefaultsWhenUnset | backend/src/utils/validateEnv.ts:18-36 | nothing set gives port 4000, the real API and development |
| Env.MockoonWithoutUrlOnlyWarns | backend/src/utils/validateEnv.ts:29-33 | mockoon mode without a URL starts with a warning |
| Env.EveryErrorReported | backend/src/utils/validateEnv.ts:15-45 | three bad variables give all three errors in check order |
| EndScreen.GetGrade | frontend/src/components/EndScreen/EndScreen.tsx:14-23 | the best grade whose threshold the percentage reaches; a zero total gives F with no correct answers (`NaN`) and S otherwise |
| EndScreen.GradeMonotone | frontend/src/components/EndScreen/EndScreen.tsx:14-23 | for a fixed total more correct answers never lower the grade |
| EndScreen.GameGrade | frontend/src/components/EndScreen/EndScreen.tsx:66-69 | the total is correct plus wrong answers; no answers gives F, only correct answers gives S |
| EndScreen.SaveScoreRequest | frontend/src/components/EndScreen/EndScreen.tsx:36-48 | a blank name sends nothing; otherwise the trimmed name and the score are sent |
| EndScreen.RequestAcceptedByServer | frontend/src/components/EndScreen/EndScreen.tsx:43-48 | a sent name of at most 50 characters with a score in range passes the server's validation unchanged |
| TimerDisplay.FormatTime | frontend/src/components/Timer/Timer.tsx:8-12 | whole minutes, a colon, and exactly two digits of seconds |
| TimerDisplay.TwoDigits | frontend/src/components/Timer/Timer.tsx:11 | the padded seconds are two digits whose value is the seconds |
| TimerDisplay.FormatTimeRoundTrip | frontend/src/components/Timer/Timer.tsx:8-12 | reading the displayed text back gives the seconds |
| TimerDisplay.TimerClass | frontend/src/components/Timer/Timer.tsx:15-27 | paused exactly when not running, critical at ≤ 5, warning at 6 to 10, plain otherwise |
| MultipleChoice.HandleClick | frontend/src/components/MultipleChoice/MultipleChoice.tsx:19-23 | the clicked Pokémon is selected exactly when not disabled |
| MultipleChoice.ButtonClass | frontend/src/components/MultipleChoice/MultipleChoice.tsx:25-45 | marked selected exactly for the selected id, marked correct exactly for the correct id, "selected wrong" for a selected non-answer |
| MultipleChoice.AtMostOneMarked | frontend/src/components/MultipleChoice/MultipleChoice.tsx:25-58 | with distinct ids at most one button is marked correct and one selected; none correct without a correct id |
| HintPanel.HintOrderListsEachTypeOnce | frontend/src/components/HintPanel/HintPanel.tsx:12-31 | the buttons list each of the three hint types exactly once |
| HintPanel.HandleHintClick | frontend/src/components/HintPanel/HintPanel.tsx:40-45 | a click requests its hint exactly when the panel is enabled, hints remain and the hint is hidden |
| HintPanel.DisabledIffIgnored | frontend/src/components/HintPanel/HintPanel.tsx:79 | a button is disabled exactly when its click would be ignored |
| HintPanel.HintButtonClass | frontend/src/components/HintPanel/HintPanel.tsx:47-59 | "hint-button", then " revealed", then " disabled", each only when its condition holds |
| HintPanel.ShownText | frontend/src/components/HintPanel/HintPanel.tsx:86 | a hint's text is shown exactly when revealed, a Pokémon is present and the text is non-empty |
| HintPanel.ClickHint | frontend/src/components/GameScreen/GameScreen.tsx:100-104 | a click on an enabled button reveals that hint; a click on a disabled one changes nothing |

## Left out

- Network I/O: Apollo queries and mutations, `node-fetch` requests, the GraphQL schema and server start-up are not modelled; their results are inputs (`draws`, `Reply`, `ListReply`, lookups).
- File I/O and JSON: the high-score file is the field `ScoreStore.file`; reading, parsing, writing and `generateId` are not modelled, and the new entry's id and date are parameters.
- Randomness: `Math.random` in the shuffle and in the random id is a parameter (`picks`, `u`); the distribution of draws is not modelled.
- React scheduling: effects, refs as a mechanism, `setInterval`/`setTimeout`, batched state updates and stale closures (for example `startGame` keeping its first `loadQuestion`) are not modelled; each hook operation runs to completion on the current state.
- Concurrent back-end requests: each `ScoreStore` operation runs to completion on its own. In the code `saveScore` awaits between reading the table (`backend/src/services/ScoreService.ts:65`) and writing it back (line 85), so two saves running at once can interleave and one entry can be lost; the model does not capture this.
- ScoreService.ScoreStore.SaveScore: whether a failed write leaves the file untouched or truncated is an input (`WriteOutcome`); the partial content a failed write may leave is modelled as an unreadable file.
- `Promise.allSettled` parallelism: a batch's results are processed in request order, as the `for` loop does.
- The abort signal is the input `abortAfter`; the code's own callers never pass a signal.
- `progress.percentage` (a floating-point value for display) and `getMode` (a log label) are not modelled.
- `getPokemonByName` lower-cases the name in the URL; URL building is not modelled, only the reply handling shared with `getPokemonById`.
- `randomPokemon` and `highScores` resolvers only delegate; the second is `ScoreStore.GetHighScores`, and an explicit `null` limit (which slices to nothing) is not distinguished from an omitted one.
- Logging (`logger`) is not modelled; the environment warning is the returned flag `warned`.
- Strings are sequences of characters, not UTF-16 code units.
- Text.CapitalizeFirst: upper-cases only the basic Latin letters a–z, not the full Unicode case mapping of `toUpperCase`.
- Resolvers.ValidateSaveScore: counts name length in characters, where the code counts UTF-16 code units.
- PokeApi.ListEntryId: `parseInt` without a radix would also read a `0x` hexadecimal prefix; the model reads decimal only, which is what the API's entry URLs contain. Numbers beyond double precision are not rounded.
- PokeApi.RandomPokemonId: the product `u × span` is exact here, not rounded to a double.
- EndScreen.GetGrade: compares the exact ratio by cross-multiplication instead of the double `correct / total × 100`.
- TimerDisplay.FormatTime: takes a non-negative whole number of seconds; negative or fractional input is not modelled (the timer never shows one).
- QuizGame.Game.constructor: requires at least one choice per question; with zero choices the code would build a question whose answer is `undefined`.
- QuizGame.Shuffled: its own contract states only the length; the permutation property is `QuizGame.ShuffledPermutes`.
- Countdown.Timer: a change of `initialTime` between renders is not modelled; the initial time is fixed per timer.
- ScoreService: entries read from the file are assumed to be well-formed records with integer scores.
