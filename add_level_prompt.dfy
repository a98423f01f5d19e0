/**
 * The prompt that offers the next hierarchy level: suggested names, a custom
 * name field, and the check that turns a blank or case-duplicate name away.
 */
module AddLevelPrompt {
  import opened Wrappers
  import opened Text
  import opened Validation
  import opened WorldBuilder
  import GenerationPhase
  import MockAI

  /** The prompt's own state: the typed name, the suggestions, and the error shown. */
  datatype Prompt = Prompt(newLevelName: string, suggestedLevels: seq<string>, isLoading: bool, error: string)

  function InitialPrompt(): (p: Prompt)
    ensures p.newLevelName == "" && p.suggestedLevels == [] && p.isLoading && p.error == ""
  {
    Prompt("", [], true, "")
  }

  /** The suggestion effect once it settles: the mock's four names for the hierarchy. */
  function LoadSuggestions(p: Prompt, hierarchy: seq<string>): (q: Prompt)
    ensures |q.suggestedLevels| == 4 && !q.isLoading
    ensures q == p.(suggestedLevels := q.suggestedLevels, isLoading := false)
    ensures q.suggestedLevels == MockAI.SuggestLevels(hierarchy)
  {
    p.(suggestedLevels := MockAI.SuggestLevels(hierarchy), isLoading := false)
  }

  const EmptyNameError: string := "Level name cannot be empty"

  function DuplicateNameError(levelName: string): string {
    "A level named \"" + levelName + "\" already exists"
  }

  /** What `handleAddLevel` leaves behind: the prompt, and the name handed to `onAddLevel`, if any. */
  datatype AddOutcome = AddOutcome(prompt: Prompt, added: Option<string>)

  /**
   * `handleAddLevel(levelName)`: a blank name and a name equal to an existing
   * level up to letter case are refused with an error; any other name is
   * handed on unchanged (untrimmed), the error cleared and the field emptied.
   */
  function HandleAddLevel(p: Prompt, hierarchy: seq<string>, levelName: string): (r: AddOutcome)
    ensures r.added.Some? <==> !IsBlank(levelName) && IsNameUnique(levelName, hierarchy)
    ensures r.added.Some? ==> r.added.value == levelName && r.prompt == p.(error := "", newLevelName := "")
    ensures IsBlank(levelName) ==> r.prompt == p.(error := EmptyNameError)
    ensures !IsBlank(levelName) && !IsNameUnique(levelName, hierarchy) ==>
      r.prompt == p.(error := DuplicateNameError(levelName))
    ensures r.added.None? ==> r.prompt.error != "" && r.prompt.newLevelName == p.newLevelName
  {
    if IsBlank(levelName) then AddOutcome(p.(error := EmptyNameError), None)
    else if !IsNameUnique(levelName, hierarchy) then AddOutcome(p.(error := DuplicateNameError(levelName)), None)
    else AddOutcome(p.(error := "", newLevelName := ""), Some(levelName))
  }

  /** Typing in the custom field stores the text and clears the error. */
  function HandleInputChange(p: Prompt, value: string): (q: Prompt)
    ensures q.newLevelName == value && q.error == ""
    ensures q == p.(newLevelName := value, error := "")
  {
    p.(newLevelName := value, error := "")
  }

  /** `Add Another Level` only empties the custom field. */
  function ClearInput(p: Prompt): (q: Prompt)
    ensures q.newLevelName == "" && q == p.(newLevelName := "")
  {
    p.(newLevelName := "")
  }

  /** `disabled={!newLevelName || !!error}` on the `Add Custom` button. */
  predicate AddCustomDisabled(p: Prompt) {
    p.newLevelName == "" || p.error != ""
  }

  /** Whatever happens to a custom add, the button is disabled afterwards: refused names leave an error, accepted ones empty the field. */
  lemma CustomAddDisablesButton(p: Prompt, hierarchy: seq<string>)
    ensures AddCustomDisabled(HandleAddLevel(p, hierarchy, p.newLevelName).prompt)
  {
  }

  /** Editing the field re-enables the button exactly when the field is not empty. */
  lemma EditReenablesButton(p: Prompt, value: string)
    ensures !AddCustomDisabled(HandleInputChange(p, value)) <==> value != ""
  {
  }

  /** A name differing from an existing level only in case is refused. */
  lemma CaseVariantRefused(p: Prompt, hierarchy: seq<string>, k: nat, levelName: string)
    requires k < |hierarchy| && SameIgnoringCase(hierarchy[k], levelName)
    ensures HandleAddLevel(p, hierarchy, levelName).added == None
  {
  }

  /**
   * The check trims only to test for blankness: once a level exists, the same
   * name with a leading space is accepted as a new level.
   */
  lemma PaddedNameAccepted(p: Prompt, name: string)
    requires name != [] && !IsJsSpace(name[0])
    ensures HandleAddLevel(p, [name], " " + name).added == Some(" " + name)
  {
    var padded := " " + name;
    BlankIffAllSpace(padded);
    assert !IsJsSpace(padded[1]);
    assert |ToLower(padded)| != |ToLower(name)|;
  }

  /** Each of the first four suggestions is accepted while the hierarchy is empty. */
  lemma FirstSuggestionsAccepted(p: Prompt, k: nat)
    requires k < 4
    ensures HandleAddLevel(p, [], MockAI.SuggestLevels([])[k]).added == Some(MockAI.SuggestLevels([])[k])
  {
    var name := MockAI.SuggestLevels([])[k];
    MockAI.FirstSuggestions();
    BlankIffAllSpace(name);
    assert !IsJsSpace(name[0]);
  }

  // ---------------------------------------------------------------- with the builder

  /** A name picked in the prompt, then `onAddLevel` on the builder when it was accepted. */
  function AddLevel(s: BuilderState, p: Prompt, levelName: string): (r: (BuilderState, Prompt))
    ensures HandleAddLevel(p, s.data.hierarchy, levelName).added.Some? ==>
      r.0 == GenerationPhase.OnAddLevel(s, levelName)
    ensures HandleAddLevel(p, s.data.hierarchy, levelName).added.None? ==> r.0 == s
    ensures r.1 == HandleAddLevel(p, s.data.hierarchy, levelName).prompt
  {
    var out := HandleAddLevel(p, s.data.hierarchy, levelName);
    if out.added.Some? then (GenerationPhase.OnAddLevel(s, levelName), out.prompt) else (s, out.prompt)
  }

  /** Levels added through the prompt never differ from an existing level only in case. */
  lemma AddLevelKeepsNoCaseDuplicates(s: BuilderState, p: Prompt, levelName: string)
    requires NoCaseDuplicates(s.data.hierarchy)
    ensures NoCaseDuplicates(AddLevel(s, p, levelName).0.data.hierarchy)
  {
    if HandleAddLevel(p, s.data.hierarchy, levelName).added.Some? {
      AppendKeepsNoCaseDuplicates(s.data.hierarchy, levelName);
    }
  }

  /** Starting from the initial state, every hierarchy reached through the prompt is free of case duplicates. */
  lemma {:induction false} PromptedHierarchyHasNoCaseDuplicates(p: Prompt, names: seq<string>)
    ensures NoCaseDuplicates(AddAll(InitialState(), p, names).data.hierarchy)
    decreases |names|
  {
    if names != [] {
      PromptedHierarchyHasNoCaseDuplicates(p, names[..|names| - 1]);
      var before := AddAll(InitialState(), p, names[..|names| - 1]);
      AddLevelKeepsNoCaseDuplicates(before, p, names[|names| - 1]);
    }
  }

  /** The builder after each name in turn is offered to the prompt. */
  function AddAll(s: BuilderState, p: Prompt, names: seq<string>): BuilderState
    decreases |names|
  {
    if names == [] then s
    else AddLevel(AddAll(s, p, names[..|names| - 1]), p, names[|names| - 1]).0
  }
}
