/**
 * The hint tracker of the `useHints` hook: the set of hint types revealed for the current
 * question. The hint budget (`hintsAvailable`) belongs to the caller and is passed in.
 */
module Hints {
  import opened Wrappers
  import opened Domain
  import Text

  const ALL_HINTS: set<HintType> := {TypeHint, FirstLetter, Evolution}

  /** Some hint type is still hidden exactly when fewer than three are revealed. */
  lemma FewerThanThreeLeavesOneHidden(revealed: set<HintType>)
    ensures |revealed| < 3 <==> exists t :: t !in revealed
  {
    assert revealed <= ALL_HINTS by {
      forall t | t in revealed ensures t in ALL_HINTS {
        match t
        case TypeHint =>
        case FirstLetter =>
        case Evolution =>
      }
    }
    assert |ALL_HINTS| == 3;
    if forall t :: t in revealed {
      assert ALL_HINTS <= revealed;
      assert revealed == ALL_HINTS;
    } else {
      var t :| t !in revealed;
      assert t in ALL_HINTS by {
        match t
        case TypeHint =>
        case FirstLetter =>
        case Evolution =>
      }
      assert |ALL_HINTS - {t}| == 2;
      assert revealed <= ALL_HINTS - {t};
      SubsetNoLarger(revealed, ALL_HINTS - {t});
    }
  }

  lemma {:induction false} SubsetNoLarger<T>(a: set<T>, b: set<T>)
    requires a <= b
    ensures |a| <= |b|
    decreases b
  {
    if b != {} {
      var x :| x in b;
      SubsetNoLarger(a - {x}, b - {x});
    }
  }

  /** The text a revealed hint shows: the types joined with " / ", the first character of the
      name (`undefined` for an empty name), or the fixed placeholder "Base Form". */
  function HintText(p: Pokemon, t: HintType): (v: Option<string>)
    ensures t == TypeHint ==> v == Some(Text.Join(p.types, " / "))
    ensures t == TypeHint ==> v.Some? && |p.types| >= 1 ==>
      |v.value| == Text.TotalLength(p.types) + 3 * (|p.types| - 1)
    ensures t == TypeHint ==> v.Some? && (|p.types| == 1 ==> v.value == p.types[0])
    ensures t == FirstLetter ==> (v.Some? <==> p.name != []) && (v.Some? ==> v.value == p.name[..1])
    ensures t == Evolution ==> v == Some("Base Form")
  {
    match t
    case TypeHint => Some(Text.Join(p.types, " / "))
    case FirstLetter => if p.name == [] then None else Some([p.name[0]])
    case Evolution => Some("Base Form")
  }

  /** A Pokémon with two types shows both, in order, around " / ". */
  lemma TypeHintOfTwoTypes(p: Pokemon)
    requires |p.types| == 2
    ensures HintText(p, TypeHint) == Some(p.types[0] + " / " + p.types[1])
  {
    assert p.types[1..] == [p.types[1]];
  }

  class HintTracker {
    var revealed: set<HintType>

    constructor ()
      ensures revealed == {}
    {
      revealed := {};
    }

    /** `revealHint`: refused without budget or for a type already revealed; otherwise adds
        exactly that type. The budget itself is never touched here. */
    method RevealHint(hintType: HintType, hintsAvailable: int) returns (ok: bool)
      modifies this
      ensures ok <==> hintsAvailable > 0 && hintType !in old(revealed)
      ensures revealed == if ok then old(revealed) + {hintType} else old(revealed)
    {
      if hintsAvailable <= 0 {
        return false;
      }
      if hintType in revealed {
        return false;
      }
      revealed := revealed + {hintType};
      ok := true;
    }

    /** `resetHints`. */
    method ResetHints()
      modifies this
      ensures revealed == {}
    {
      revealed := {};
    }

    /** `isHintRevealed`. A type still hidden means fewer than three are revealed, so with
        budget left `canRevealMore` holds. */
    function IsHintRevealed(hintType: HintType): (b: bool)
      reads this
      ensures b <==> hintType in revealed
      ensures !b ==> |revealed| < 3
      ensures !b ==> forall h :: h > 0 ==> CanRevealMore(h)
    {
      FewerThanThreeLeavesOneHidden(revealed);
      hintType in revealed
    }

    /** `getHintValue`: nothing without a Pokémon or for a hidden type. */
    function HintValue(pokemon: Option<Pokemon>, hintType: HintType): (v: Option<string>)
      reads this
      ensures pokemon.None? || hintType !in revealed ==> v == None
      ensures pokemon.Some? && hintType in revealed ==> v == HintText(pokemon.value, hintType)
    {
      if pokemon.None? || hintType !in revealed then None
      else HintText(pokemon.value, hintType)
    }

    /** `canRevealMore`: budget left and fewer than three types revealed, which is the same as
        budget left and some type still hidden. */
    function CanRevealMore(hintsAvailable: int): (b: bool)
      reads this
      ensures b <==> hintsAvailable > 0 && exists t :: t !in revealed
    {
      FewerThanThreeLeavesOneHidden(revealed);
      hintsAvailable > 0 && |revealed| < 3
    }
  }

  /** Revealing the same type twice for one question: the first succeeds, the second does not,
      and only one type is added. */
  method RevealTwice(hintType: HintType, hintsAvailable: int) returns (first: bool, second: bool, shown: set<HintType>)
    requires hintsAvailable > 0
    ensures first && !second && shown == {hintType}
  {
    var tracker := new HintTracker();
    first := tracker.RevealHint(hintType, hintsAvailable);
    second := tracker.RevealHint(hintType, hintsAvailable);
    shown := tracker.revealed;
  }
}
