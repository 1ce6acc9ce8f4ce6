/**
 * The hint panel: one button per hint type, its click guard, its CSS class, its disabled flag
 * and whether the revealed text is shown.
 */
module HintPanel {
  import opened Wrappers
  import opened Domain
  import Hints

  /** The order of the buttons (the keys of the panel's hint table). */
  const HINT_ORDER: seq<HintType> := [TypeHint, FirstLetter, Evolution]

  /** Each hint type has exactly one button. */
  lemma HintOrderListsEachTypeOnce()
    ensures |HINT_ORDER| == 3
    ensures forall t: HintType :: t in HINT_ORDER
    ensures forall i, j :: 0 <= i < j < |HINT_ORDER| ==> HINT_ORDER[i] != HINT_ORDER[j]
  {
    forall t: HintType ensures t in HINT_ORDER {
      match t
      case TypeHint => assert HINT_ORDER[0] == t;
      case FirstLetter => assert HINT_ORDER[1] == t;
      case Evolution => assert HINT_ORDER[2] == t;
    }
  }

  /** `handleHintClick`: the hint requested, unless the panel is disabled, no hint is left or
      this one is already revealed. */
  function HandleHintClick(disabled: bool, hintsRemaining: int, revealed: bool, hintType: HintType): (r: Option<HintType>)
    ensures r.Some? <==> !disabled && hintsRemaining > 0 && !revealed
    ensures r.Some? ==> r.value == hintType
  {
    if disabled || hintsRemaining <= 0 || revealed then None else Some(hintType)
  }

  /** The button's `disabled` attribute. */
  predicate ButtonDisabled(disabled: bool, hintsRemaining: int, revealed: bool) {
    disabled || hintsRemaining <= 0 || revealed
  }

  /** A disabled button is exactly a button whose click is ignored. */
  lemma DisabledIffIgnored(disabled: bool, hintsRemaining: int, revealed: bool, hintType: HintType)
    ensures ButtonDisabled(disabled, hintsRemaining, revealed) <==>
      HandleHintClick(disabled, hintsRemaining, revealed, hintType).None?
  {
  }

  /** `getButtonClass`: "hint-button", then " revealed" when revealed, then " disabled" when
      the panel is disabled or no hint is left, in that order. */
  function HintButtonClass(revealed: bool, disabled: bool, hintsRemaining: int): (c: string)
    ensures c == "hint-button" + (if revealed then " revealed" else "")
      + (if disabled || hintsRemaining <= 0 then " disabled" else "")
    ensures |c| == 11 + (if revealed then 9 else 0) + (if disabled || hintsRemaining <= 0 then 9 else 0)
  {
    var className := "hint-button";
    var withRevealed := if revealed then className + " revealed" else className;
    if disabled || hintsRemaining <= 0 then withRevealed + " disabled" else withRevealed
  }

  /** The hint text is shown only when the hint is revealed and its text is non-empty. */
  predicate ShowsValue(revealed: bool, value: Option<string>) {
    revealed && value.Some? && value.value != []
  }

  /** With the tracker's answers, a hint's text is on screen exactly when it is revealed and
      its text is non-empty: the first letter of an empty name and the types of a Pokémon
      with no type are never shown. */
  lemma ShownText(tracker: Hints.HintTracker, pokemon: Option<Pokemon>, t: HintType)
    ensures ShowsValue(tracker.IsHintRevealed(t), tracker.HintValue(pokemon, t)) <==>
      t in tracker.revealed && pokemon.Some? &&
      Hints.HintText(pokemon.value, t).Some? && Hints.HintText(pokemon.value, t).value != []
    ensures t == FirstLetter && pokemon.Some? && pokemon.value.name == [] ==>
      !ShowsValue(tracker.IsHintRevealed(t), tracker.HintValue(pokemon, t))
    ensures t == Evolution && pokemon.Some? ==>
      (ShowsValue(tracker.IsHintRevealed(t), tracker.HintValue(pokemon, t)) <==> t in tracker.revealed)
  {
  }

  /** A click on an enabled button, wired to the tracker's `revealHint` as the game screen
      does, always reveals that hint; a click on a disabled button changes nothing. */
  method ClickHint(tracker: Hints.HintTracker, disabled: bool, hintsRemaining: int, t: HintType)
    returns (revealedNow: bool)
    modifies tracker
    ensures revealedNow <==> !ButtonDisabled(disabled, hintsRemaining, t in old(tracker.revealed))
    ensures tracker.revealed == if revealedNow then old(tracker.revealed) + {t} else old(tracker.revealed)
  {
    var request := HandleHintClick(disabled, hintsRemaining, tracker.IsHintRevealed(t), t);
    if request.None? {
      return false;
    }
    revealedNow := tracker.RevealHint(request.value, hintsRemaining);
  }
}
