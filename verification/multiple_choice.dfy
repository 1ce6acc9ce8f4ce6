/**
 * The answer buttons: which Pokémon a click selects and how each button is styled once an
 * answer is known.
 */
module MultipleChoice {
  import opened Wrappers
  import opened Domain

  const BASE_CLASS := "choice-button"

  /** `handleClick`: the Pokémon passed to `onSelect`, unless the buttons are disabled. */
  function HandleClick(disabled: bool, p: Pokemon): (selected: Option<Pokemon>)
    ensures selected.Some? <==> !disabled
    ensures selected.Some? ==> selected.value == p
  {
    if !disabled then Some(p) else None
  }

  /** `getButtonClass`; an absent id (`undefined`) matches no Pokémon. */
  function ButtonClass(p: Pokemon, correctId: Option<int>, selectedId: Option<int>): (c: string)
    ensures c in {BASE_CLASS, BASE_CLASS + " correct", BASE_CLASS + " selected correct", BASE_CLASS + " selected wrong"}
    ensures MarkedSelected(c) <==> selectedId == Some(p.id)
    ensures MarkedCorrect(c) <==> correctId == Some(p.id)
    ensures c == BASE_CLASS + " selected wrong" <==> selectedId == Some(p.id) && correctId != Some(p.id)
  {
    if selectedId == Some(p.id) then
      if correctId == Some(p.id) then BASE_CLASS + " selected correct"
      else BASE_CLASS + " selected wrong"
    else if correctId == Some(p.id) then BASE_CLASS + " correct"
    else BASE_CLASS
  }

  predicate MarkedCorrect(c: string) {
    c == BASE_CLASS + " correct" || c == BASE_CLASS + " selected correct"
  }

  predicate MarkedSelected(c: string) {
    c == BASE_CLASS + " selected correct" || c == BASE_CLASS + " selected wrong"
  }

  /** Among choices with distinct ids at most one button is marked correct and at most one
      selected, and none is marked correct when the correct id is absent. */
  lemma AtMostOneMarked(choices: seq<Pokemon>, correctId: Option<int>, selectedId: Option<int>)
    requires DistinctIds(choices)
    ensures forall i, j ::
      (0 <= i < |choices| && 0 <= j < |choices| &&
       MarkedCorrect(ButtonClass(choices[i], correctId, selectedId)) &&
       MarkedCorrect(ButtonClass(choices[j], correctId, selectedId))) ==> i == j
    ensures forall i, j ::
      (0 <= i < |choices| && 0 <= j < |choices| &&
       MarkedSelected(ButtonClass(choices[i], correctId, selectedId)) &&
       MarkedSelected(ButtonClass(choices[j], correctId, selectedId))) ==> i == j
    ensures correctId.None? ==> forall i :: 0 <= i < |choices| ==>
      !MarkedCorrect(ButtonClass(choices[i], correctId, selectedId))
  {
    forall i, j | 0 <= i < |choices| && 0 <= j < |choices| && i != j
      ensures choices[i].id != choices[j].id
    {
      if i < j { assert choices[i].id != choices[j].id; } else { assert choices[j].id != choices[i].id; }
    }
  }
}
