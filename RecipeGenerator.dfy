/** The recipe panel: its generate/clear state machine and what it renders (src/components/RecipeGenerator.js). */
module RecipeGenerator {
  import opened Wrappers
  import opened Text
  import opened GroceryItem
  import App

  const GenerateErrorMessage := "Failed to generate recipe. Please try again."
  const Newline := '\n'

  /** A recipe as the recipe service returns it. */
  datatype Recipe = Recipe(title: string, ingredients: seq<string>, instructions: string, tips: Option<string>)

  /** What the recipe service answers for a selection. */
  datatype RecipeOutcome = Generated(recipe: Recipe) | GenerateFailed

  /** The number of newline characters in `s`. */
  function Newlines(s: string): nat
    decreases |s|
  {
    if |s| == 0 then 0 else (if s[0] == Newline then 1 else 0) + Newlines(s[1..])
  }

  /** `s.split('\n')`: the maximal newline-free pieces of `s`, always at least one. */
  function SplitLines(s: string): (steps: seq<string>)
    ensures |steps| >= 1
    decreases |s|
  {
    if |s| == 0 then [""]
    else
      var rest := SplitLines(s[1..]);
      if s[0] == Newline then [""] + rest
      else [[s[0]] + rest[0]] + rest[1..]
  }

  /** `steps.join('\n')`. */
  function JoinLines(steps: seq<string>): string
    decreases |steps|
  {
    if |steps| == 0 then ""
    else if |steps| == 1 then steps[0]
    else steps[0] + [Newline] + JoinLines(steps[1..])
  }

  /** No step contains a newline. */
  lemma {:induction false} SplitLinesNoNewline(s: string)
    ensures forall i :: 0 <= i < |SplitLines(s)| ==> Newline !in SplitLines(s)[i]
    decreases |s|
  {
    if |s| > 0 {
      SplitLinesNoNewline(s[1..]);
      var rest := SplitLines(s[1..]);
      if s[0] != Newline {
        assert forall i :: 1 <= i < |SplitLines(s)| ==> SplitLines(s)[i] == rest[i];
      }
    }
  }

  /** There is one more step than there are newlines. */
  lemma {:induction false} SplitLinesCount(s: string)
    ensures |SplitLines(s)| == Newlines(s) + 1
    decreases |s|
  {
    if |s| > 0 {
      SplitLinesCount(s[1..]);
    }
  }

  /** Joining the steps with newlines gives back the instructions. */
  lemma {:induction false} JoinSplitLines(s: string)
    ensures JoinLines(SplitLines(s)) == s
    decreases |s|
  {
    if |s| > 0 {
      JoinSplitLines(s[1..]);
      var rest := SplitLines(s[1..]);
      if s[0] == Newline {
        assert SplitLines(s)[1..] == rest;
        assert s == [Newline] + s[1..];
      } else if |rest| == 1 {
        assert s == [s[0]] + rest[0];
      } else {
        assert SplitLines(s)[1..] == rest[1..];
        assert JoinLines(rest) == rest[0] + [Newline] + JoinLines(rest[1..]);
        assert s == [s[0]] + s[1..];
      }
    }
  }

  /** Splitting a newline-free piece alone gives just that piece. */
  lemma {:induction false} SplitLinesSingle(p: string)
    requires Newline !in p
    ensures SplitLines(p) == [p]
    decreases |p|
  {
    if |p| > 0 {
      assert Newline !in p[1..];
      SplitLinesSingle(p[1..]);
      assert p == [p[0]] + p[1..];
    }
  }

  /** A newline-free piece followed by a newline splits off as the first step. */
  lemma {:induction false} SplitLinesCons(p: string, rest: string)
    requires Newline !in p
    ensures SplitLines(p + [Newline] + rest) == [p] + SplitLines(rest)
    decreases |p|
  {
    var s := p + [Newline] + rest;
    if |p| == 0 {
      assert s[0] == Newline && s[1..] == rest;
    } else {
      assert Newline !in p[1..];
      SplitLinesCons(p[1..], rest);
      assert s[0] == p[0] && s[1..] == p[1..] + [Newline] + rest;
      assert p == [p[0]] + p[1..];
    }
  }

  /** Conversely, splitting the join of newline-free steps gives back the steps. */
  lemma {:induction false} SplitJoinLines(steps: seq<string>)
    requires |steps| >= 1
    requires forall i :: 0 <= i < |steps| ==> Newline !in steps[i]
    ensures SplitLines(JoinLines(steps)) == steps
    decreases |steps|
  {
    if |steps| == 1 {
      SplitLinesSingle(steps[0]);
    } else {
      SplitJoinLines(steps[1..]);
      SplitLinesCons(steps[0], JoinLines(steps[1..]));
      assert steps == [steps[0]] + steps[1..];
    }
  }

  /** Two instruction lines display as two steps. */
  lemma TwoLineInstructions()
    ensures SplitLines("Mix\nServe") == ["Mix", "Serve"]
  {
    assert "Mix\nServe" == "Mix" + [Newline] + "Serve";
    SplitLinesCons("Mix", "Serve");
    SplitLinesSingle("Serve");
  }

  /** The price part of a selected-item chip: "($" amount ")" when the price is present. */
  function ChipPriceSuffix(price: Option<nat>): (s: string)
    ensures s == "" <==> price.None?
    ensures price.Some? ==> s == "($" + Fixed2(price.value) + ")"
  {
    if price.Some? then "($" + Fixed2(price.value) + ")" else ""
  }

  /** A selected-item chip: the name, a space, and the price part. */
  function ItemChipLabel(item: Item): (text: string)
    ensures |text| >= |item.name| + 1 && text[..|item.name| + 1] == item.name + " "
    ensures |text| > |item.name| + 1 <==> item.price.Some?
    ensures item.price.None? ==> text == item.name + " "
    ensures item.price.Some? ==> text[|item.name| + 1..] == "($" + Fixed2(item.price.value) + ")"
  {
    var text := item.name + " " + ChipPriceSuffix(item.price);
    assert text[..|item.name| + 1] == item.name + " ";
    assert text[|item.name| + 1..] == ChipPriceSuffix(item.price);
    text
  }

  /** `disabled={loading || selectedItems.length === 0}` on the generate button. */
  predicate GenerateDisabled(loading: bool, selected: seq<Item>)
  {
    loading || |selected| == 0
  }

  /** `disabled={loading}` on the clear button. */
  predicate ClearDisabled(loading: bool)
  {
    loading
  }

  /** The recipe card's content. */
  datatype RecipeCard = RecipeCard(title: string, ingredients: seq<string>, steps: seq<string>, tips: Option<string>)

  /** The two things the panel can render: the info notice, or the controls and their content. */
  datatype PanelView =
    | InfoOnly
    | Controls(count: nat, chips: seq<string>, generateDisabled: bool, clearDisabled: bool,
               spinner: bool, alert: Option<string>, card: Option<RecipeCard>)

  function RenderCard(r: Recipe): (card: RecipeCard)
    ensures card.title == r.title && card.ingredients == r.ingredients
    ensures JoinLines(card.steps) == r.instructions
    ensures |card.steps| == Newlines(r.instructions) + 1
    ensures forall i :: 0 <= i < |card.steps| ==> Newline !in card.steps[i]
    ensures card.tips.Some? <==> Truthy(r.tips)
    ensures card.tips.Some? ==> card.tips == r.tips
  {
    JoinSplitLines(r.instructions);
    SplitLinesCount(r.instructions);
    SplitLinesNoNewline(r.instructions);
    RecipeCard(r.title, r.ingredients, SplitLines(r.instructions), if Truthy(r.tips) then r.tips else None)
  }

  /** What the panel renders for a selection and the panel state. */
  function RenderPanel(selected: seq<Item>, loading: bool, recipe: Option<Recipe>, error: Option<string>): (view: PanelView)
    ensures view.InfoOnly? <==> |selected| == 0
    ensures view.Controls? ==> view.count == |selected| && |view.chips| == |selected|
    ensures view.Controls? ==> forall i :: 0 <= i < |selected| ==> view.chips[i] == ItemChipLabel(selected[i])
    ensures view.Controls? ==> view.generateDisabled == GenerateDisabled(loading, selected)
    ensures view.Controls? ==> view.clearDisabled == ClearDisabled(loading)
    ensures view.Controls? ==> (view.generateDisabled <==> loading)
    ensures view.Controls? ==> view.spinner == loading
    ensures view.Controls? ==> (view.alert.Some? <==> Truthy(error)) && (view.alert.Some? ==> view.alert == error)
    ensures view.Controls? ==> (view.card.Some? <==> recipe.Some? && !loading)
    ensures view.Controls? && view.card.Some? ==> view.card.value == RenderCard(recipe.value)
  {
    if |selected| == 0 then InfoOnly
    else
      var chips := seq(|selected|, i requires 0 <= i < |selected| => ItemChipLabel(selected[i]));
      var card := if recipe.Some? && !loading then Some(RenderCard(recipe.value)) else None;
      Controls(|selected|, chips, GenerateDisabled(loading, selected), ClearDisabled(loading),
               loading, if Truthy(error) then error else None, card)
  }

  /** The panel's state cells. */
  class RecipePanel {
    var loading: bool
    var recipe: Option<Recipe>
    var error: Option<string>

    constructor ()
      ensures !loading && recipe == None && error == None
    {
      loading := false;
      recipe := None;
      error := None;
    }

    /**
     * `handleGenerateRecipe`: raise `loading` and clear the error, ask the service, keep the
     * recipe or record the error message, and lower `loading`.
     */
    method HandleGenerateRecipe(selected: seq<Item>, service: seq<Item> -> RecipeOutcome)
      modifies this
      ensures !loading
      ensures service(selected).Generated? ==>
        recipe == Some(service(selected).recipe) && error == None
      ensures service(selected).GenerateFailed? ==>
        recipe == old(recipe) && error == Some(GenerateErrorMessage)
    {
      loading := true;
      error := None;
      var outcome := service(selected);
      if outcome.Generated? {
        recipe := Some(outcome.recipe);
      } else {
        error := Some(GenerateErrorMessage);
      }
      loading := false;
    }

    /** `handleClearAll`: asks the parent to clear the selection and drops the recipe and error. */
    method HandleClearAll(selected: seq<Item>) returns (newSelection: seq<Item>)
      modifies this`recipe, this`error
      ensures recipe == None && error == None
      ensures newSelection == App.ClearSelection(selected)
    {
      newSelection := App.ClearSelection(selected);
      recipe := None;
      error := None;
    }
  }

  /** After a successful generation for a non-empty selection, the card shows that recipe. */
  lemma GeneratedRecipeIsShown(selected: seq<Item>, r: Recipe)
    requires |selected| > 0
    ensures RenderPanel(selected, false, Some(r), None).Controls?
    ensures RenderPanel(selected, false, Some(r), None).card == Some(RenderCard(r))
    ensures RenderPanel(selected, false, Some(r), None).alert.None?
  {
  }

  /** After a clear-all the panel always falls back to the info notice. */
  lemma ClearAllShowsInfo(selected: seq<Item>, loading: bool)
    ensures RenderPanel(App.ClearSelection(selected), loading, None, None) == InfoOnly
  {
  }
}
