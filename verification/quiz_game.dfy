/**
 * The quiz session of the `useQuizGame` hook: the game record and its updates (answering,
 * spending a hint, advancing), the batched collection of distinct random Pokémon for a
 * question, the Fisher-Yates shuffle of the choices, and the single in-flight load flag.
 *
 * The random draws are given by the caller: `draws[k]` is the outcome of the k-th remote
 * random-Pokémon request of one load (`None` for a rejected request or an empty answer; draws
 * past the end of the sequence are failures). The shuffle's `Math.random` is given as `picks`:
 * `picks[i]` is the index swapped with position `i`. The abort signal is `abortAfter`: when it
 * is `Some(n)`, every check of the signal made after `n` completed batches reads "aborted".
 */
module QuizGame {
  import opened Wrappers
  import opened Domain
  import opened Config

  datatype GameState = GameState(
    currentQuestion: nat,
    score: nat,
    streak: nat,
    hintsRemaining: nat,
    hintsUsed: nat,
    isGameOver: bool,
    correctAnswers: nat,
    wrongAnswers: nat)

  datatype Question = Question(correctPokemon: Pokemon, choices: seq<Pokemon>)

  /** The error thrown when too few distinct Pokémon were collected. */
  datatype LoadError = NotEnoughUnique(got: nat, needed: nat, attempts: nat)

  datatype LoadOutcome = Skipped | Cancelled | Loaded | Failed(error: LoadError)

  datatype NextOutcome = GameOver | NextLoad(load: LoadOutcome)

  /** The record every game starts from. */
  const FRESH_GAME := GameState(0, 0, 0, DEFAULT_HINTS, 0, false, 0, 0)

  /** `maxRetries`: no further batch starts once this many draws were made. The last batch
      may pass it, so one load makes at most `MAX_ATTEMPTS + MAX_BATCH - 1` (59) draws. */
  const MAX_ATTEMPTS: nat := 50

  /** The largest batch of parallel draws. */
  const MAX_BATCH: nat := 10

  function Max(a: int, b: int): int { if a < b then b else a }
  function Min(a: int, b: int): int { if a < b then a else b }

  // ---------------------------------------------------------------------------------------
  // Game record updates

  /** `checkAnswer`'s update: a correct answer earns `BASE_POINTS * max(1, streak + 1)`. */
  function Answered(prev: GameState, isCorrect: bool): (next: GameState)
    ensures isCorrect ==>
      && next.score == prev.score + BASE_POINTS * (prev.streak + 1)
      && next.streak == prev.streak + 1
      && next.correctAnswers == prev.correctAnswers + 1
      && next.wrongAnswers == prev.wrongAnswers
    ensures !isCorrect ==>
      && next.score == prev.score
      && next.streak == 0
      && next.correctAnswers == prev.correctAnswers
      && next.wrongAnswers == prev.wrongAnswers + 1
    ensures next.currentQuestion == prev.currentQuestion && next.isGameOver == prev.isGameOver
    ensures next.hintsRemaining == prev.hintsRemaining && next.hintsUsed == prev.hintsUsed
  {
    if isCorrect then
      var multiplier := Max(1, prev.streak + 1);
      prev.(score := prev.score + BASE_POINTS * multiplier,
            streak := prev.streak + 1,
            correctAnswers := prev.correctAnswers + 1)
    else
      prev.(streak := 0, wrongAnswers := prev.wrongAnswers + 1)
  }

  /** `useHint`'s update: one unit moves from the remaining budget to the used count. */
  function HintSpent(prev: GameState): (r: (GameState, bool))
    ensures r.1 <==> prev.hintsRemaining > 0
    ensures r.1 ==> r.0 == prev.(hintsRemaining := prev.hintsRemaining - 1, hintsUsed := prev.hintsUsed + 1)
    ensures !r.1 ==> r.0 == prev
    ensures r.0.hintsRemaining + r.0.hintsUsed == prev.hintsRemaining + prev.hintsUsed
  {
    if prev.hintsRemaining > 0 then
      (prev.(hintsRemaining := prev.hintsRemaining - 1, hintsUsed := prev.hintsUsed + 1), true)
    else (prev, false)
  }

  /** `progress.current`: the one-based number of the question on screen. */
  function ProgressCurrent(g: GameState): nat {
    g.currentQuestion + 1
  }

  /** `nextQuestion`'s decision: the game is over when the question on screen is the last one
      the progress display counts; a count of one or less ends it at the first question. */
  function EndsGame(prev: GameState, questionCount: int): (ends: bool)
    ensures ends <==> ProgressCurrent(prev) >= questionCount
    ensures questionCount <= 1 ==> ends
  {
    prev.currentQuestion + 1 >= questionCount
  }

  /** `1 + 2 + ... + n`. */
  function Triangle(n: nat): nat {
    if n == 0 then 0 else Triangle(n - 1) + n
  }

  /** What the scoring rule lets the record reach: the streak never exceeds the correct answers,
      and each correct answer earned between `BASE_POINTS` and `BASE_POINTS` times its position
      in an unbroken run. */
  predicate ScoreInvariant(g: GameState) {
    && g.streak <= g.correctAnswers
    && BASE_POINTS * g.correctAnswers <= g.score
    && g.score <= BASE_POINTS * Triangle(g.correctAnswers)
  }

  lemma FreshGameIsSound()
    ensures ScoreInvariant(FRESH_GAME)
    ensures FRESH_GAME.hintsRemaining + FRESH_GAME.hintsUsed == DEFAULT_HINTS
  {
  }

  /** Every answer keeps the score within its bounds. */
  lemma AnsweredKeepsScoreInvariant(g: GameState, isCorrect: bool)
    requires ScoreInvariant(g)
    ensures ScoreInvariant(Answered(g, isCorrect))
  {
    var n := Answered(g, isCorrect);
    if isCorrect {
      assert Triangle(n.correctAnswers) == Triangle(g.correctAnswers) + g.correctAnswers + 1;
      assert BASE_POINTS * (g.streak + 1) <= BASE_POINTS * (g.correctAnswers + 1);
    }
  }

  /** `n` correct answers in a row. */
  function CorrectRun(g: GameState, n: nat): GameState
    decreases n
  {
    if n == 0 then g else Answered(CorrectRun(g, n - 1), true)
  }

  /** A run of `n` correct answers starting at streak `s` earns `BASE_POINTS * (n*s + 1 + ... + n)`;
      the streak multiplier is never capped. */
  lemma {:induction false} CorrectRunScore(g: GameState, n: nat)
    ensures CorrectRun(g, n).streak == g.streak + n
    ensures CorrectRun(g, n).correctAnswers == g.correctAnswers + n
    ensures CorrectRun(g, n).score == g.score + BASE_POINTS * (n * g.streak + Triangle(n))
  {
    if n > 0 {
      CorrectRunScore(g, n - 1);
      var p := CorrectRun(g, n - 1);
      calc {
        CorrectRun(g, n).score;
        p.score + BASE_POINTS * (p.streak + 1);
        g.score + BASE_POINTS * ((n - 1) * g.streak + Triangle(n - 1)) + BASE_POINTS * (g.streak + n);
        { assert (n - 1) * g.streak + g.streak == n * g.streak; }
        g.score + BASE_POINTS * (n * g.streak + Triangle(n));
      }
    }
  }

  /** Three correct answers from a fresh game score 100 + 200 + 300. */
  lemma ThreeCorrectFromFreshGame()
    ensures CorrectRun(FRESH_GAME, 3).score == 600
  {
    CorrectRunScore(FRESH_GAME, 3);
  }

  /** The eleventh correct answer in a row earns more than `MAX_STREAK_MULTIPLIER` times the base. */
  lemma StreakMultiplierUncapped(g: GameState)
    requires g.streak == MAX_STREAK_MULTIPLIER
    ensures Answered(g, true).score - g.score > BASE_POINTS * MAX_STREAK_MULTIPLIER
  {
  }

  /** A wrong answer after any streak resets it and leaves the score alone. */
  lemma WrongAnswerAfterStreak(g: GameState)
    requires g.streak == 5
    ensures Answered(g, false).streak == 0 && Answered(g, false).score == g.score
    ensures Answered(g, false).wrongAnswers == g.wrongAnswers + 1
  {
  }

  // ---------------------------------------------------------------------------------------
  // Collecting distinct Pokémon

  function DrawAt(draws: seq<Option<Pokemon>>, k: nat): Option<Pokemon> {
    if k < |draws| then draws[k] else None
  }

  /** The results of the `size` parallel requests issued after `from` earlier ones. */
  function Batch(draws: seq<Option<Pokemon>>, from: nat, size: nat): (b: seq<Option<Pokemon>>)
    ensures |b| == size
    ensures forall i :: 0 <= i < size ==> b[i] == DrawAt(draws, from + i)
  {
    seq(size, i requires 0 <= i < size => DrawAt(draws, from + i))
  }

  function IdsOf(s: seq<Pokemon>): set<int> {
    set p | p in s :: p.id
  }

  /** `p` is the result of one of the first `upto` draws. */
  predicate Drawn(draws: seq<Option<Pokemon>>, upto: nat, p: Pokemon) {
    exists k :: 0 <= k < upto && DrawAt(draws, k) == Some(p)
  }

  /** Every Pokémon in `s` is the result of one of the first `upto` draws. */
  predicate AllDrawn(draws: seq<Option<Pokemon>>, upto: nat, s: seq<Pokemon>) {
    forall p :: p in s ==> Drawn(draws, upto, p)
  }

  /** A batch asks for twice what is still missing, at most ten. */
  function BatchSize(needed: nat, have: nat): (size: nat)
    requires have < needed
    ensures 2 <= size <= MAX_BATCH && size <= 2 * (needed - have)
  {
    Min(2 * (needed - have), MAX_BATCH)
  }

  /** Processing one batch's results in order: a present Pokémon whose id is new is appended,
      and processing stops once `needed` are held. */
  function Absorb(needed: nat, batch: seq<Option<Pokemon>>, found: seq<Pokemon>): (r: seq<Pokemon>)
    ensures |found| <= |r| <= |found| + |batch|
    ensures |found| < needed ==> |r| <= needed
    decreases |batch|
  {
    if batch == [] then found
    else match batch[0]
      case None => Absorb(needed, batch[1..], found)
      case Some(p) =>
        if p.id in IdsOf(found) then Absorb(needed, batch[1..], found)
        else
          var grown := found + [p];
          if |grown| >= needed then grown else Absorb(needed, batch[1..], grown)
  }

  /** Processing a batch only appends to the held list, keeps its ids distinct, and appends
      only Pokémon present in the batch. */
  lemma {:induction false} AbsorbSound(needed: nat, batch: seq<Option<Pokemon>>, found: seq<Pokemon>)
    ensures var r := Absorb(needed, batch, found);
      && r[..|found|] == found
      && (DistinctIds(found) ==> DistinctIds(r))
      && (forall i :: |found| <= i < |r| ==> Some(r[i]) in batch)
    decreases |batch|
  {
    if batch != [] {
      var r := Absorb(needed, batch, found);
      var rest := batch[1..];
      assert batch == [batch[0]] + rest;
      match batch[0]
      case None =>
        AbsorbSound(needed, rest, found);
        assert r == Absorb(needed, rest, found);
      case Some(p) =>
        if p.id in IdsOf(found) {
          AbsorbSound(needed, rest, found);
          assert r == Absorb(needed, rest, found);
        } else {
          var grown := found + [p];
          assert DistinctIds(found) ==> DistinctIds(grown) by {
            if DistinctIds(found) {
              forall i | 0 <= i < |found| ensures found[i].id != p.id {
                assert found[i] in found;
              }
            }
          }
          assert grown[..|found|] == found;
          if |grown| < needed {
            AbsorbSound(needed, rest, grown);
            assert r == Absorb(needed, rest, grown);
            assert r[..|found|] == r[..|grown|][..|found|];
            assert r[|found|] == p by {
              assert r[..|grown|][|found|] == grown[|found|];
            }
          }
        }
    }
  }

  datatype Gathered = Gathered(found: seq<Pokemon>, attempts: nat, batches: nat)

  /** Whether a check of the abort signal made after `batches` completed batches reads "aborted". */
  predicate AbortedAt(abortAfter: Option<nat>, batches: nat) {
    abortAfter.Some? && abortAfter.value <= batches
  }

  /** The collection loop from a given point; `None` when an abort is seen at the loop head. */
  function Gather(needed: nat, draws: seq<Option<Pokemon>>, abortAfter: Option<nat>,
                  found: seq<Pokemon>, attempts: nat, batches: nat): (r: Option<Gathered>)
    ensures r.None? ==> abortAfter.Some?
    ensures r.Some? ==> |r.value.found| >= needed || r.value.attempts >= MAX_ATTEMPTS
    ensures r.Some? ==> |found| <= |r.value.found| && r.value.found[..|found|] == found
    ensures r.Some? && DistinctIds(found) ==> DistinctIds(r.value.found)
    ensures r.Some? && |found| <= needed ==> |r.value.found| <= needed
    ensures r.Some? ==> attempts <= r.value.attempts && batches <= r.value.batches
    ensures r.Some? && attempts <= MAX_ATTEMPTS + MAX_BATCH - 1 ==> r.value.attempts <= MAX_ATTEMPTS + MAX_BATCH - 1
    ensures r.Some? && AllDrawn(draws, attempts, found) ==> AllDrawn(draws, r.value.attempts, r.value.found)
    decreases MAX_ATTEMPTS - attempts
  {
    if |found| >= needed || attempts >= MAX_ATTEMPTS then Some(Gathered(found, attempts, batches))
    else if AbortedAt(abortAfter, batches) then None
    else
      var size := BatchSize(needed, |found|);
      var next := Absorb(needed, Batch(draws, attempts, size), found);
      var r := Gather(needed, draws, abortAfter, next, attempts + size, batches + 1);
      AbsorbSound(needed, Batch(draws, attempts, size), found);
      AbsorbDrawnWhenAll(needed, draws, found, attempts, size);
      assert r.Some? ==> r.value.found[..|found|] == r.value.found[..|next|][..|found|];
      r
  }

  /** What a finished collection guarantees: distinct ids, never more than needed, every
      Pokémon the result of an actual draw, too few only once the attempt cap is reached,
      and at most 59 attempts. */
  lemma GatherSound(needed: nat, draws: seq<Option<Pokemon>>, abortAfter: Option<nat>,
                    found: seq<Pokemon>, attempts: nat, batches: nat)
    requires DistinctIds(found) && |found| <= needed && attempts <= MAX_ATTEMPTS + MAX_BATCH - 1
    requires forall p :: p in found ==> Drawn(draws, attempts, p)
    ensures var r := Gather(needed, draws, abortAfter, found, attempts, batches);
      r.Some? ==>
        && DistinctIds(r.value.found)
        && |found| <= |r.value.found| <= needed
        && r.value.found[..|found|] == found
        && (forall p :: p in r.value.found ==> Drawn(draws, r.value.attempts, p))
        && (|r.value.found| < needed ==> r.value.attempts >= MAX_ATTEMPTS)
        && attempts <= r.value.attempts <= MAX_ATTEMPTS + MAX_BATCH - 1
        && batches <= r.value.batches
  {
    var r := Gather(needed, draws, abortAfter, found, attempts, batches);
    assert AllDrawn(draws, attempts, found);
    if r.Some? {
      assert AllDrawn(draws, r.value.attempts, r.value.found);
    }
  }

  /** Every Pokémon held after a batch came from a draw made so far. */
  lemma AbsorbDrawnWhenAll(needed: nat, draws: seq<Option<Pokemon>>, found: seq<Pokemon>, attempts: nat, size: nat)
    ensures AllDrawn(draws, attempts, found) ==>
      AllDrawn(draws, attempts + size, Absorb(needed, Batch(draws, attempts, size), found))
  {
    if AllDrawn(draws, attempts, found) {
      AbsorbDrawn(needed, draws, found, attempts, size);
    }
  }

  lemma AbsorbDrawn(needed: nat, draws: seq<Option<Pokemon>>, found: seq<Pokemon>, attempts: nat, size: nat)
    requires AllDrawn(draws, attempts, found)
    ensures AllDrawn(draws, attempts + size, Absorb(needed, Batch(draws, attempts, size), found))
  {
    var b := Batch(draws, attempts, size);
    var next := Absorb(needed, b, found);
    AbsorbSound(needed, b, found);
    forall p | p in next ensures Drawn(draws, attempts + size, p) {
      var i :| 0 <= i < |next| && next[i] == p;
      if i < |found| {
        assert next[..|found|][i] == p;
        assert p in found;
      } else {
        assert Some(p) in b;
        var k :| 0 <= k < size && b[k] == Some(p);
        assert DrawAt(draws, attempts + k) == Some(p);
      }
    }
  }

  /** One round of the collection loop: a batch of `BatchSize` draws is absorbed. */
  lemma GatherStep(needed: nat, draws: seq<Option<Pokemon>>, abortAfter: Option<nat>,
                   found: seq<Pokemon>, attempts: nat, batches: nat)
    requires |found| < needed && attempts < MAX_ATTEMPTS && !AbortedAt(abortAfter, batches)
    ensures var size := BatchSize(needed, |found|);
      Gather(needed, draws, abortAfter, found, attempts, batches)
      == Gather(needed, draws, abortAfter, Absorb(needed, Batch(draws, attempts, size), found),
                attempts + size, batches + 1)
  {
  }

  /** When every draw answers with the same Pokémon id (or fails), at most one is collected. */
  lemma GatherSameIdStaysSmall(needed: nat, draws: seq<Option<Pokemon>>, abortAfter: Option<nat>, id: int)
    requires forall k :: 0 <= k < |draws| && draws[k].Some? ==> draws[k].value.id == id
    ensures var r := Gather(needed, draws, abortAfter, [], 0, 0);
      r.Some? ==> |r.value.found| <= 1
  {
    var r := Gather(needed, draws, abortAfter, [], 0, 0);
    assert AllDrawn(draws, 0, []);
    if r.Some? && |r.value.found| >= 2 {
      var f := r.value.found;
      assert f[0] in f && f[1] in f;
      SameIdWhenDrawn(draws, r.value.attempts, f[0], id);
      SameIdWhenDrawn(draws, r.value.attempts, f[1], id);
      assert false;
    }
  }

  /** A Pokémon drawn from draws that all share one id has that id. */
  lemma SameIdWhenDrawn(draws: seq<Option<Pokemon>>, upto: nat, p: Pokemon, id: int)
    requires forall k :: 0 <= k < |draws| && draws[k].Some? ==> draws[k].value.id == id
    requires Drawn(draws, upto, p)
    ensures p.id == id
  {
    var k :| 0 <= k < upto && DrawAt(draws, k) == Some(p);
    assert k < |draws| && draws[k] == Some(p);
  }

  // ---------------------------------------------------------------------------------------
  // Fisher-Yates shuffle

  /** `picks[i]` stands for `Math.floor(Math.random() * (i + 1))`, an index in `[0, i]`. */
  predicate PicksFit(picks: seq<nat>, n: nat) {
    |picks| >= n && forall i :: 0 <= i < n ==> picks[i] <= i
  }

  function Swap(s: seq<Pokemon>, i: nat, j: nat): (r: seq<Pokemon>)
    requires i < |s| && j < |s|
    ensures |r| == |s|
    ensures forall k :: 0 <= k < |s| ==> r[k] == s[if k == i then j else if k == j then i else k]
  {
    s[i := s[j]][j := s[i]]
  }

  lemma SwapPermutes(s: seq<Pokemon>, i: nat, j: nat)
    requires i < |s| && j < |s|
    ensures multiset(Swap(s, i, j)) == multiset(s)
    ensures DistinctIds(s) ==> DistinctIds(Swap(s, i, j))
  {
    var r := Swap(s, i, j);
    if i != j {
      assert r == s[i := s[j]][j := s[i]];
    } else {
      assert r == s;
    }
  }

  /** The steps of the shuffle for positions `n - 1` down to `1`. */
  function Shuffled(s: seq<Pokemon>, picks: seq<nat>, n: nat): (r: seq<Pokemon>)
    requires n <= |s| && PicksFit(picks, n)
    ensures |r| == |s|
    decreases n
  {
    if n <= 1 then s else Shuffled(Swap(s, n - 1, picks[n - 1]), picks, n - 1)
  }

  /** The shuffle only reorders, so it keeps the ids distinct. */
  lemma {:induction false} ShuffledPermutes(s: seq<Pokemon>, picks: seq<nat>, n: nat)
    requires n <= |s| && PicksFit(picks, n)
    ensures multiset(Shuffled(s, picks, n)) == multiset(s)
    ensures DistinctIds(s) ==> DistinctIds(Shuffled(s, picks, n))
    decreases n
  {
    if n > 1 {
      SwapPermutes(s, n - 1, picks[n - 1]);
      ShuffledPermutes(Swap(s, n - 1, picks[n - 1]), picks, n - 1);
    }
  }

  /** `shuffleArray`: copies the list and swaps from the last position down. */
  method ShuffleArray(s: seq<Pokemon>, picks: seq<nat>) returns (r: seq<Pokemon>)
    requires PicksFit(picks, |s|)
    ensures r == Shuffled(s, picks, |s|)
    ensures multiset(r) == multiset(s)
  {
    var a := new Pokemon[|s|](k requires 0 <= k < |s| => s[k]);
    assert a[..] == s;
    var i: int := |s| - 1;
    while i > 0
      invariant -1 <= i < |s| && a.Length == |s|
      invariant Shuffled(a[..], picks, i + 1) == Shuffled(s, picks, |s|)
    {
      var j := picks[i];
      ghost var before := a[..];
      a[i], a[j] := a[j], a[i];
      assert a[..] == Swap(before, i, j);
      i := i - 1;
    }
    r := a[..];
    ShuffledPermutes(s, picks, |s|);
  }

  // ---------------------------------------------------------------------------------------
  // One load of a question

  /** A question as a load builds it: `size` choices with distinct ids, the answer among them. */
  predicate WellFormedQuestion(q: Question, size: nat) {
    && |q.choices| == size
    && DistinctIds(q.choices)
    && q.correctPokemon in q.choices
  }

  /** How a load that got past the in-flight guard ends. */
  datatype Ending =
    | Cancel(clearsFlag: bool)
    | Fail(error: LoadError)
    | Success(question: Question)

  /** The ending of a load, as decided by the collection and the abort checks. */
  function LoadEnding(needed: nat, draws: seq<Option<Pokemon>>, picks: seq<nat>, abortAfter: Option<nat>): (e: Ending)
    requires needed >= 1 && PicksFit(picks, needed)
    ensures e.Cancel? ==> abortAfter.Some?
    ensures e.Fail? ==> e.error.got < e.error.needed == needed && e.error.attempts >= MAX_ATTEMPTS
    ensures e.Success? ==> |e.question.choices| == needed
  {
    if AbortedAt(abortAfter, 0) then Cancel(true)
    else match Gather(needed, draws, abortAfter, [], 0, 0)
      case None => Cancel(false)
      case Some(g) =>
        if |g.found| < needed then
          if AbortedAt(abortAfter, g.batches) then Cancel(true)
          else Fail(NotEnoughUnique(|g.found|, needed, g.attempts))
        else if AbortedAt(abortAfter, g.batches) then Cancel(false)
        else Success(Question(g.found[0], Shuffled(g.found[..needed], picks, needed)))
  }

  /** A multiset view of "exactly once": distinct ids leave one copy of the first element. */
  lemma FirstOccursOnce(s: seq<Pokemon>)
    requires s != [] && DistinctIds(s)
    ensures multiset(s)[s[0]] == 1
  {
    assert s == [s[0]] + s[1..];
    assert forall k | 0 <= k < |s| - 1 :: s[1..][k].id != s[0].id;
    assert s[0] !in s[1..];
  }

  /** The question built from a full collection: the answer is the first Pokémon collected, the
      choices are the collection reordered, with distinct ids, holding the answer exactly once. */
  lemma {:induction false} CollectedQuestionSound(found: seq<Pokemon>, picks: seq<nat>, needed: nat)
    requires 1 <= needed == |found| && DistinctIds(found) && PicksFit(picks, needed)
    ensures var q := Question(found[0], Shuffled(found, picks, needed));
      && WellFormedQuestion(q, needed)
      && multiset(q.choices) == multiset(found)
      && multiset(q.choices)[q.correctPokemon] == 1
  {
    ShuffledPermutes(found, picks, needed);
    FirstOccursOnce(found);
  }

  /** A successful load holds a well-formed question whose choices are the collected Pokémon
      reordered and drawn by actual requests; a failed load gave up after at least 50 and at
      most 59 draws; a load with no abort signal is never cancelled. */
  lemma LoadEndingSound(needed: nat, draws: seq<Option<Pokemon>>, picks: seq<nat>, abortAfter: Option<nat>)
    requires needed >= 1 && PicksFit(picks, needed)
    ensures match LoadEnding(needed, draws, picks, abortAfter)
      case Success(q) =>
        && WellFormedQuestion(q, needed)
        && multiset(q.choices)[q.correctPokemon] == 1
        && (forall p :: p in q.choices ==> Drawn(draws, MAX_ATTEMPTS + MAX_BATCH - 1, p))
      case Fail(e) =>
        e.got < e.needed == needed && MAX_ATTEMPTS <= e.attempts <= MAX_ATTEMPTS + MAX_BATCH - 1
      case Cancel(_) => abortAfter.Some?
  {
    var r := Gather(needed, draws, abortAfter, [], 0, 0);
    GatherSound(needed, draws, abortAfter, [], 0, 0);
    if !AbortedAt(abortAfter, 0) && r.Some? && |r.value.found| >= needed
       && !AbortedAt(abortAfter, r.value.batches) {
      GatheredQuestionSound(needed, draws, picks, r.value);
    }
  }

  /** The question built from a full collection of drawn Pokémon is well formed, holds the
      answer once, and offers only Pokémon drawn within the first 59 requests. */
  lemma GatheredQuestionSound(needed: nat, draws: seq<Option<Pokemon>>, picks: seq<nat>, g: Gathered)
    requires 1 <= needed == |g.found| && DistinctIds(g.found) && PicksFit(picks, needed)
    requires AllDrawn(draws, g.attempts, g.found) && g.attempts <= MAX_ATTEMPTS + MAX_BATCH - 1
    ensures var q := Question(g.found[0], Shuffled(g.found[..needed], picks, needed));
      && WellFormedQuestion(q, needed)
      && multiset(q.choices)[q.correctPokemon] == 1
      && (forall p :: p in q.choices ==> Drawn(draws, MAX_ATTEMPTS + MAX_BATCH - 1, p))
  {
    var found := g.found;
    assert found[..needed] == found;
    CollectedQuestionSound(found, picks, needed);
    var choices := Shuffled(found, picks, needed);
    forall p | p in choices ensures Drawn(draws, MAX_ATTEMPTS + MAX_BATCH - 1, p) {
      assert p in multiset(found);
      assert p in found;
      assert Drawn(draws, g.attempts, p);
      var k :| 0 <= k < g.attempts && DrawAt(draws, k) == Some(p);
    }
  }

  lemma {:induction false} GatherWithoutAbort(needed: nat, draws: seq<Option<Pokemon>>,
                                              found: seq<Pokemon>, attempts: nat, batches: nat)
    ensures Gather(needed, draws, None, found, attempts, batches).Some?
    decreases MAX_ATTEMPTS - attempts
  {
    if !(|found| >= needed || attempts >= MAX_ATTEMPTS) {
      var size := BatchSize(needed, |found|);
      GatherWithoutAbort(needed, draws, Absorb(needed, Batch(draws, attempts, size), found),
                         attempts + size, batches + 1);
    }
  }

  /** Draws that all answer with one Pokémon never make a question of two or more choices. */
  lemma SameIdDrawsFail(needed: nat, draws: seq<Option<Pokemon>>, picks: seq<nat>, id: int)
    requires needed >= 2 && PicksFit(picks, needed)
    requires forall k :: 0 <= k < |draws| && draws[k].Some? ==> draws[k].value.id == id
    ensures LoadEnding(needed, draws, picks, None).Fail?
  {
    GatherSameIdStaysSmall(needed, draws, None, id);
    GatherWithoutAbort(needed, draws, [], 0, 0);
  }

  /** The `for (const result of results)` loop over one settled batch. */
  method AbsorbBatch(needed: nat, results: seq<Option<Pokemon>>, found0: seq<Pokemon>, usedIds0: set<int>)
    returns (found: seq<Pokemon>, usedIds: set<int>)
    requires usedIds0 == IdsOf(found0) && |found0| < needed
    ensures found == Absorb(needed, results, found0)
    ensures usedIds == IdsOf(found)
  {
    found, usedIds := found0, usedIds0;
    var i := 0;
    while i < |results|
      invariant 0 <= i <= |results|
      invariant usedIds == IdsOf(found) && |found| < needed
      invariant Absorb(needed, results[i..], found) == Absorb(needed, results, found0)
    {
      if results[i].Some? {
        var p := results[i].value;
        if p.id !in usedIds {
          assert IdsOf(found + [p]) == IdsOf(found) + {p.id};
          found := found + [p];
          usedIds := usedIds + {p.id};
          if |found| >= needed {
            return;
          }
        }
      }
      i := i + 1;
    }
  }

  /** The fetching part of `loadQuestion`, after the flags are set: the abort checks at the
      start, after the loop, in the error path and before the question is built, the batch
      loop, and the shuffle of the first `needed` Pokémon collected. */
  method FetchQuestion(needed: nat, draws: seq<Option<Pokemon>>, picks: seq<nat>, abortAfter: Option<nat>)
    returns (e: Ending)
    requires needed >= 1 && PicksFit(picks, needed)
    ensures e == LoadEnding(needed, draws, picks, abortAfter)
  {
    if AbortedAt(abortAfter, 0) {
      return Cancel(true);
    }
    var found, attempts, batches, aborted := CollectUnique(needed, draws, abortAfter);
    if aborted {
      return Cancel(false);
    }
    if |found| < needed {
      if AbortedAt(abortAfter, batches) {
        return Cancel(true);
      }
      return Fail(NotEnoughUnique(|found|, needed, attempts));
    }
    if AbortedAt(abortAfter, batches) {
      return Cancel(false);
    }
    var choices := ShuffleArray(found[..needed], picks);
    return Success(Question(found[0], choices));
  }

  /** The `while` loop of `loadQuestion`: batches of `min(2 * remaining, 10)` draws until enough
      distinct Pokémon are held or 50 draws were made; `aborted` when the signal is seen at the
      loop head. */
  method CollectUnique(needed: nat, draws: seq<Option<Pokemon>>, abortAfter: Option<nat>)
    returns (found: seq<Pokemon>, attempts: nat, batches: nat, aborted: bool)
    ensures aborted <==> Gather(needed, draws, abortAfter, [], 0, 0).None?
    ensures !aborted ==> Gather(needed, draws, abortAfter, [], 0, 0) == Some(Gathered(found, attempts, batches))
  {
    found, attempts, batches, aborted := [], 0, 0, false;
    var usedIds: set<int> := {};
    while |found| < needed && attempts < MAX_ATTEMPTS
      invariant usedIds == IdsOf(found)
      invariant Gather(needed, draws, abortAfter, found, attempts, batches)
             == Gather(needed, draws, abortAfter, [], 0, 0)
      decreases MAX_ATTEMPTS - attempts
    {
      if AbortedAt(abortAfter, batches) {
        aborted := true;
        return;
      }
      found, attempts, batches, usedIds := CollectRound(needed, draws, abortAfter, found, attempts, batches, usedIds);
    }
  }

  /** One pass of the loop body: a batch of `min(2 * remaining, 10)` draws is issued and its
      results absorbed; what is left of the collection is unchanged by taking this step. */
  method CollectRound(needed: nat, draws: seq<Option<Pokemon>>, abortAfter: Option<nat>,
                      found0: seq<Pokemon>, attempts0: nat, batches0: nat, usedIds0: set<int>)
    returns (found: seq<Pokemon>, attempts: nat, batches: nat, usedIds: set<int>)
    requires usedIds0 == IdsOf(found0) && |found0| < needed && attempts0 < MAX_ATTEMPTS
    requires !AbortedAt(abortAfter, batches0)
    ensures usedIds == IdsOf(found) && attempts0 < attempts && batches == batches0 + 1
    ensures Gather(needed, draws, abortAfter, found, attempts, batches)
         == Gather(needed, draws, abortAfter, found0, attempts0, batches0)
  {
    var size := BatchSize(needed, |found0|);
    var results := Batch(draws, attempts0, size);
    found, usedIds := AbsorbBatch(needed, results, found0, usedIds0);
    attempts := attempts0 + size;
    batches := batches0 + 1;
    calc {
      Gather(needed, draws, abortAfter, found0, attempts0, batches0);
      { GatherStep(needed, draws, abortAfter, found0, attempts0, batches0); }
      Gather(needed, draws, abortAfter, Absorb(needed, results, found0), attempts0 + size, batches0 + 1);
      Gather(needed, draws, abortAfter, found, attempts, batches);
    }
  }

  // ---------------------------------------------------------------------------------------
  // The hook's state

  class Game {
    const numberOfChoices: nat
    const questionCount: int
    var state: GameState
    var question: Option<Question>
    var isLoading: bool
    var error: Option<LoadError>
    /** `isLoadingRef`: set while a load is in flight. */
    var loadInFlight: bool

    /** The invariant every operation keeps. */
    predicate Valid()
      reads this
    {
      && numberOfChoices >= 1
      && ScoreInvariant(state)
      && state.hintsRemaining + state.hintsUsed == DEFAULT_HINTS
      && (question.Some? ==> WellFormedQuestion(question.value, numberOfChoices))
    }

    constructor (numberOfChoices: nat, questionCount: int)
      requires numberOfChoices >= 1
      ensures Valid()
      ensures this.numberOfChoices == numberOfChoices && this.questionCount == questionCount
      ensures state == FRESH_GAME && question == None && !isLoading && error == None && !loadInFlight
    {
      this.numberOfChoices := numberOfChoices;
      this.questionCount := questionCount;
      state := FRESH_GAME;
      question := None;
      isLoading := false;
      error := None;
      loadInFlight := false;
    }

    /** `loadQuestion`: collects distinct Pokémon in batches, then sets a shuffled question. */
    method LoadQuestion(draws: seq<Option<Pokemon>>, picks: seq<nat>, abortAfter: Option<nat>)
      returns (outcome: LoadOutcome)
      requires Valid() && PicksFit(picks, numberOfChoices)
      modifies this
      ensures Valid() && state == old(state)
      ensures old(loadInFlight) ==>
        outcome == Skipped && loadInFlight && question == old(question)
        && isLoading == old(isLoading) && error == old(error)
      ensures !old(loadInFlight) ==>
        match LoadEnding(numberOfChoices, draws, picks, abortAfter)
        case Cancel(clears) =>
          outcome == Cancelled && loadInFlight == !clears && isLoading
          && error == None && question == old(question)
        case Fail(e) =>
          outcome == Failed(e) && !loadInFlight && !isLoading
          && error == Some(e) && question == old(question)
        case Success(q) =>
          outcome == Loaded && !loadInFlight && !isLoading && error == None && question == Some(q)
    {
      if loadInFlight {
        return Skipped;
      }
      loadInFlight := true;
      isLoading := true;
      error := None;
      var ending := FetchQuestion(numberOfChoices, draws, picks, abortAfter);
      LoadEndingSound(numberOfChoices, draws, picks, abortAfter);
      match ending
      case Cancel(clears) =>
        loadInFlight := !clears;
        outcome := Cancelled;
      case Fail(e) =>
        error := Some(e);
        loadInFlight := false;
        isLoading := false;
        outcome := Failed(e);
      case Success(q) =>
        question := Some(q);
        isLoading := false;
        loadInFlight := false;
        outcome := Loaded;
    }

    /** `startGame`: resets the record, then loads the first question. */
    method StartGame(draws: seq<Option<Pokemon>>, picks: seq<nat>, abortAfter: Option<nat>)
      returns (outcome: LoadOutcome)
      requires Valid() && PicksFit(picks, numberOfChoices)
      modifies this
      ensures Valid() && state == FRESH_GAME
      ensures old(loadInFlight) ==>
        outcome == Skipped && question == old(question) && error == None
        && loadInFlight && isLoading == old(isLoading)
      ensures !old(loadInFlight) ==>
        match LoadEnding(numberOfChoices, draws, picks, abortAfter)
        case Cancel(clears) =>
          outcome == Cancelled && question == old(question) && error == None
          && loadInFlight == !clears && isLoading
        case Fail(e) =>
          outcome == Failed(e) && question == old(question) && error == Some(e)
          && !loadInFlight && !isLoading
        case Success(q) =>
          outcome == Loaded && question == Some(q) && error == None && !loadInFlight && !isLoading
    {
      error := None;
      state := FRESH_GAME;
      outcome := LoadQuestion(draws, picks, abortAfter);
      if outcome.Failed? {
        error := Some(outcome.error);
      }
    }

    /** `endGame`. */
    method EndGame()
      requires Valid()
      modifies this
      ensures Valid()
      ensures state == old(state).(isGameOver := true) && question == None
      ensures isLoading == old(isLoading) && error == old(error) && loadInFlight == old(loadInFlight)
    {
      state := state.(isGameOver := true);
      question := None;
    }

    /** `checkAnswer`: without a question nothing happens; otherwise the scoring rule applies. */
    method CheckAnswer(selected: Pokemon) returns (isCorrect: bool)
      requires Valid()
      modifies this
      ensures Valid()
      ensures old(question).None? ==> !isCorrect && state == old(state)
      ensures old(question).Some? ==>
        isCorrect == (selected.id == old(question).value.correctPokemon.id)
        && state == Answered(old(state), isCorrect)
      ensures question == old(question) && isLoading == old(isLoading)
      ensures error == old(error) && loadInFlight == old(loadInFlight)
    {
      if question.None? {
        return false;
      }
      isCorrect := selected.id == question.value.correctPokemon.id;
      AnsweredKeepsScoreInvariant(state, isCorrect);
      state := Answered(state, isCorrect);
    }

    /** `nextQuestion`: advances the index, then ends the game or loads the next question. */
    method NextQuestion(draws: seq<Option<Pokemon>>, picks: seq<nat>, abortAfter: Option<nat>)
      returns (outcome: NextOutcome)
      requires Valid() && PicksFit(picks, numberOfChoices)
      modifies this
      ensures Valid()
      ensures EndsGame(old(state), questionCount) ==>
        outcome == GameOver && question == None
        && state == old(state).(currentQuestion := old(state).currentQuestion + 1, isGameOver := true)
      ensures EndsGame(old(state), questionCount) ==>
        isLoading == old(isLoading) && error == old(error) && loadInFlight == old(loadInFlight)
      ensures !EndsGame(old(state), questionCount) ==>
        outcome.NextLoad? && state == old(state).(currentQuestion := old(state).currentQuestion + 1)
      ensures !EndsGame(old(state), questionCount) && old(loadInFlight) ==>
        outcome == NextLoad(Skipped) && question == old(question) && error == old(error)
        && loadInFlight && isLoading == old(isLoading)
      ensures !EndsGame(old(state), questionCount) && !old(loadInFlight) ==>
        match LoadEnding(numberOfChoices, draws, picks, abortAfter)
        case Cancel(clears) =>
          outcome == NextLoad(Cancelled) && question == old(question) && error == None
          && loadInFlight == !clears && isLoading
        case Fail(e) =>
          outcome == NextLoad(Failed(e)) && question == old(question) && error == Some(e)
          && !loadInFlight && !isLoading
        case Success(q) =>
          outcome == NextLoad(Loaded) && question == Some(q) && error == None
          && !loadInFlight && !isLoading
    {
      var ends := EndsGame(state, questionCount);
      state := state.(currentQuestion := state.currentQuestion + 1);
      if ends {
        EndGame();
        outcome := GameOver;
      } else {
        var load := LoadQuestion(draws, picks, abortAfter);
        outcome := NextLoad(load);
      }
    }

    /** `useHint`: spends one unit of the hint budget when any is left. */
    method UseHint() returns (used: bool)
      requires Valid()
      modifies this
      ensures Valid()
      ensures (state, used) == HintSpent(old(state))
      ensures question == old(question) && isLoading == old(isLoading)
      ensures error == old(error) && loadInFlight == old(loadInFlight)
    {
      var r := HintSpent(state);
      state := r.0;
      used := r.1;
    }
  }
}
