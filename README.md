# World builder: the world-data store and its handlers

The world builder is a React application. It guides a player through
describing a fantasy world, then building a hierarchy of levels (kingdoms,
provinces, cities, …) and generating named entities for each level. The
player links entities to parents one level up, attaches non-player
characters (NPCs), and fills a starting inventory. A completion service
(a language model) writes the names, descriptions, NPCs and inventory. An
offline mock supplies fixed suggestions and random items.

This project models the part of the application that keeps and changes the
world data. It uses these modules:

- `WorldBuilder`: the `useWorldBuilder` hook.
  - The initial state.
  - Entity generation, with its bounded name retry and its fallbacks.
  - The automatic link to a lone parent.
  - The entity and inventory edits.
- `GenerationPhase`, `AssociationPhase`, `AddLevelPrompt` and `App`: the handlers of the wizard screens.
  - Which screen is shown.
  - The entity-count input and the generate button.
  - Adding a level, with its validation.
  - Creating the world and finishing.
- `NpcManager` and `CompletionScreen`: the NPC panel and the inventory editor.
  - Records are edited by id: a merge-update, a filter-delete, a guarded append.
- `Validation`: the case-insensitive level-name check.
- `GameAI`: the logic around each completion-service call.
  - Trimming and fallback values.
  - Pluralisation.
  - Id tagging of generated records.
  - The NPC field and name checks, and error rewording.
  - Windowing of the game history.
- `MockAI`: the offline generator.
  - The level-suggestion table.
  - Description templates.
  - The four-item random inventory.
- `Text`, `Records` and `Wrappers` hold the JavaScript built-ins the handlers rely on, and the list edits they share.
  - Text built-ins: `toLowerCase` on ASCII, `trim`, `endsWith`, `slice`, template-literal numbers, and `parseInt` of decimal text.
  - Shared list edits: `map` over matching ids, and `filter`.

React state is modelled as immutable values, and each handler is a function from the old state to the new one. The
loops of the source are methods proved against specification functions:
- the entity loop and its `do … while` name retry;
- the `forEach` that builds the automatic links;
- the mock inventory loop.

The reply of every call to the completion service is a parameter of type `Result`: `Ok` holds the reply and `Err` holds the message of the thrown error. For the inventory call the argument is modelled as well, because it decides whether the reply is used at all (see "## Findings").
Other nondeterministic values are parameters too:
- the `Math.random()` values and suffixes;
- the category shuffle;
- the uniqueness predicate that entity generation uses.

## Model

| member | source | states |
|---|---|---|
| WorldBuilder.InitialState | src/hooks/useWorldBuilder.js:7-18 | the store starts with an empty hierarchy, entities, associations, inventory and NPCs, an ungenerated world, level `world`, count 0, all flags off, and trivially no case-duplicate levels |
| WorldBuilder.Singular | src/hooks/useWorldBuilder.js:22 | a level ending in `s` loses exactly that one `s` (re-appending it gives the level back); any other level is unchanged |
| WorldBuilder.SingularStripsOneS | src/hooks/useWorldBuilder.js:22 | for every word, the singular of the word plus `s` is the word, even when the word itself ends in `s` |
| WorldBuilder.EntityIdInjective | src/hooks/useWorldBuilder.js:60 | two positions of the same level get the same `level-i` id only when they are the same position |
| WorldBuilder.NameCalls | src/hooks/useWorldBuilder.js:40-51 | the retry makes at least one call and at most the three remaining attempts |
| WorldBuilder.FirstUniqueNameKept | src/hooks/useWorldBuilder.js:43-51 | a first answer that passes the uniqueness check is kept, after exactly one call |
| WorldBuilder.SecondUniqueNameKept | src/hooks/useWorldBuilder.js:43-51 | a rejected first answer followed by a passing second answer keeps the second, after exactly two calls |
| WorldBuilder.ThirdNameReplacedByFallback | src/hooks/useWorldBuilder.js:43-50 | after two rejected answers the third answer is discarded for the fallback name, whatever it is, after exactly three calls |
| WorldBuilder.ChosenNameSound | src/hooks/useWorldBuilder.js:40-51 | a kept name is either the fallback, or a passing answer from one of the first two attempts; an error is the error of one of the calls the retry made |
| WorldBuilder.PickName | src/hooks/useWorldBuilder.js:39-51 | the `do … while` loop returns the name the retry specification chooses, and the number of calls it specifies (1 to 3) |
| WorldBuilder.EntityAt | src/hooks/useWorldBuilder.js:28-77 | entity `i` has id `level-i`; it needs a description exactly when the name retry or the description call failed; on failure it has the error fallback name and an empty description, otherwise the chosen name and the returned description |
| WorldBuilder.GenerateEntities | src/hooks/useWorldBuilder.js:21-82 | the loop returns exactly `count` entities (none for a count below one), in order; entity `k` is the `k`-th specified entity with id `level-k`; the ids are pairwise distinct |
| WorldBuilder.IndexOf | src/hooks/useWorldBuilder.js:85 | `indexOf` is -1 exactly when the level is absent; otherwise it is the first position holding the level |
| WorldBuilder.ParentLevel | src/hooks/useWorldBuilder.js:85 | a level has a parent level exactly when it is in the hierarchy and is not its first level; the parent level sits just above it and differs from it |
| WorldBuilder.AsWrittenFirstLevelGetsParent | src/hooks/useWorldBuilder.js:85-86 | as written, the lookup for the first level reads the entities of a level named "undefined": the first of two levels `kingdoms`, `undefined` has no parent level, yet it is given the lone entity of `undefined` |
| WorldBuilder.ParentEntities | src/hooks/useWorldBuilder.js:85-86 | the candidate parents are the entities of the level just above (none when that level has no list); a level without a parent level has none |
| WorldBuilder.ParentEntitiesAgreeBelowFirst | src/hooks/useWorldBuilder.js:85-86 | wherever a parent level exists, the corrected lookup and the lookup as written give the same list |
| WorldBuilder.LinksTo | src/hooks/useWorldBuilder.js:90-93 | the new links map exactly the children's ids, each to the parent id |
| WorldBuilder.AutoConnectSingleParent | src/hooks/useWorldBuilder.js:84-101 | links exactly when the level above holds exactly one entity; then every child of the level maps to that parent, and every other existing link keeps its value; otherwise the data is unchanged |
| WorldBuilder.FirstLevelNeverConnects | src/hooks/useWorldBuilder.js:85-100 | the first level, and a level outside the hierarchy, have no candidate parents, so nothing is linked |
| WorldBuilder.UpdateEntity | src/hooks/useWorldBuilder.js:103-113 | only the named level changes; each of its entities with the id is merged with the updates, the others stay; length and order are kept; other levels and the rest of the data are unchanged |
| WorldBuilder.UpdateEntityKeepsIds | src/hooks/useWorldBuilder.js:108-110 | an entity update keeps the set of ids of the level |
| WorldBuilder.UpdateInventory | src/hooks/useWorldBuilder.js:115-120 | the inventory is replaced and every other part of the data is unchanged |
| Text.ToLower | src/utils/validation.js:2 | lower-casing keeps the length and maps each ASCII capital to its small letter |
| Text.ToLowerIdempotent | src/utils/validation.js:2 | lower-casing twice is the same as lower-casing once |
| Text.TrimStart | src/components/world-builder/AddLevelPrompt.js:23 | the result is a suffix of the text; every dropped character is white space, and the result does not start with white space |
| Text.TrimEnd | src/components/world-builder/AddLevelPrompt.js:23 | the result is a prefix of the text; every dropped character is white space, and the result does not end with white space |
| Text.BlankIffAllSpace | src/components/world-builder/AddLevelPrompt.js:23 | `!s.trim()` holds exactly when every character of `s` is JavaScript white space |
| Text.DropLast | src/hooks/useWorldBuilder.js:22 | `slice(0, -1)` followed by the last character gives back the text; the empty text stays empty |
| Text.Decimal | src/hooks/useWorldBuilder.js:60 | a number is written as at least one decimal digit |
| Text.DecimalRoundTrip | src/hooks/useWorldBuilder.js:60 | reading back the digits written for `n` gives `n` |
| Text.DecimalInjective | src/hooks/useWorldBuilder.js:60 | different numbers are written differently |
| Text.ParseInt | src/components/world-builder/GenerationPhase.js:88 | `parseInt` is NaN exactly when, after leading white space and one sign, no digit follows; without a minus sign the value is not negative |
| Text.ParseIntDecimal | src/components/world-builder/GenerationPhase.js:88 | `parseInt` reads back a written number, and the same number after a minus sign |
| Text.ContainsMiddle | src/utils/mockAI.js:23-40 | text built around a part contains that part |
| Records.MapWhere | src/hooks/useWorldBuilder.js:108-110 | the `map` edit keeps length and order, replaces each matching record by its merge, and keeps every other record |
| Records.RemoveWhere | src/components/world-builder/NPCManager.js:51 | the `filter` removes every match and keeps every other record, in its original order, so the length drops by the number of matches |
| Validation.IsNameUnique | src/utils/validation.js:1-3 | a name is unique exactly when no level equals it once both are lower-cased |
| Validation.UniqueInEmpty | src/utils/validation.js:1-2 | every name is unique in an empty hierarchy |
| Validation.UniqueIgnoresCase | src/utils/validation.js:2 | two names that differ only in case get the same answer, and so does the lower-cased name |
| Validation.UniqueIgnoresOrder | src/utils/validation.js:2 | the answer is the same for any reordering of the hierarchy |
| Validation.UniqueAfterAppend | src/utils/validation.js:2 | appending a level that differs from the name, case aside, does not change the answer |
| Validation.AppendKeepsNoCaseDuplicates | src/components/world-builder/AddLevelPrompt.js:28-34 | appending a name that passes the check to a hierarchy without case duplicates keeps it without case duplicates |
| GenerationPhase.CurrentScreen | src/components/world-builder/GenerationPhase.js:50-71 | world creation is shown exactly when the level is `world` and the world is not generated; the add-level prompt exactly on `addLevel`; otherwise the count form until entities are shown, then the list |
| GenerationPhase.CountFromInput | src/components/world-builder/GenerationPhase.js:88 | `parseInt(text) \|\| 0`: NaN becomes 0; any number is kept |
| GenerationPhase.CountFromInputReadsDecimal | src/components/world-builder/GenerationPhase.js:88 | a typed number is read back as the count |
| GenerationPhase.HandleCountInput | src/components/world-builder/GenerationPhase.js:88 | only the entity count changes |
| GenerationPhase.NonNumericCountDisablesGenerate | src/components/world-builder/GenerationPhase.js:88-91 | text that does not start with a number sets the count to 0, which disables the generate button |
| GenerationPhase.HandleGenerateEntities | src/components/world-builder/GenerationPhase.js:21-37 | the current level's entities are replaced by the generated list and the other levels and the rest of the state stay; loading ends and the list is shown; links change only when there is more than one level and the level above holds one entity, and then they become exactly the old links plus every new entity mapped to that parent |
| GenerationPhase.HandleEntityUpdate | src/components/world-builder/GenerationPhase.js:9-19 | only the current level changes: its matching entity is merged, length and order are kept, and other levels and the rest of the state are unchanged |
| GenerationPhase.HandleAssociation | src/components/world-builder/GenerationPhase.js:39-47 | exactly one link is set to the chosen parent, and every other link is unchanged |
| GenerationPhase.SelectShowsChosenParent | src/components/world-builder/GenerationPhase.js:168-171 | the select then shows the chosen parent, and the blank option stores `''` |
| GenerationPhase.OnAddLevel | src/components/world-builder/GenerationPhase.js:58-66 | the name is appended to the hierarchy and becomes the current level; the list is hidden and the count resets to 0; nothing else changes |
| GenerationPhase.AddedLevelShowsCountForm | src/components/world-builder/GenerationPhase.js:55-73 | in a generated world, adding any level other than `addLevel` leads to the count form |
| GenerationPhase.LevelNamedAddLevelKeepsPrompt | src/components/world-builder/GenerationPhase.js:55-66 | adding a level literally named `addLevel` leaves the wizard on the add-level prompt |
| GenerationPhase.ShownParentLevel | src/components/world-builder/GenerationPhase.js:106-107 | a parent level is offered exactly when the current level's index is above 0, and it is the level before it |
| GenerationPhase.ShownParentEntities | src/components/world-builder/GenerationPhase.js:108 | no parents without a parent level, with an unnamed one or without a list for it; otherwise the parent level's list |
| GenerationPhase.ShownParentsMatchAutoConnect | src/components/world-builder/GenerationPhase.js:106-108 | unless the parent level is unnamed, the list offers exactly the parents the automatic link considers |
| GenerationPhase.ParentLabel | src/components/world-builder/GenerationPhase.js:163 | the label is `Parent <level>:` with one trailing `s` of the level dropped |
| AssociationPhase.HandleGenerateEntities | src/components/world-builder/AssociationPhase.js:5-22 | the current level gets `count` generated entities, entity `k` being the `k`-th specified one with id `level-k`; the other levels, the world, inventory, NPCs, count and completion flag stay; loading ends and the list is shown; with more than one level and a lone parent above, the links become the old links plus every new entity mapped to it, otherwise they are unchanged |
| AssociationPhase.CountGuard | src/components/world-builder/AssociationPhase.js:38-44 | non-numeric text disables the button; a typed number enables it exactly when it is not 0 and nothing is loading |
| AddLevelPrompt.InitialPrompt | src/components/world-builder/AddLevelPrompt.js:7-10 | the prompt starts with an empty name, no suggestions, loading, and no error |
| AddLevelPrompt.LoadSuggestions | src/components/world-builder/AddLevelPrompt.js:12-20 | the suggestions become the mock's four names for the hierarchy, and loading ends |
| AddLevelPrompt.HandleAddLevel | src/components/world-builder/AddLevelPrompt.js:22-36 | a name is handed on exactly when it is not blank and passes the case-insensitive check, untrimmed, with the error cleared and the field emptied; a blank name gets the empty-name error, a duplicate the already-exists error, and a refused name keeps the field |
| AddLevelPrompt.HandleInputChange | src/components/world-builder/AddLevelPrompt.js:78-81 | typing stores the text and clears the error |
| AddLevelPrompt.ClearInput | src/components/world-builder/AddLevelPrompt.js:102-103 | `Add Another Level` only empties the field |
| AddLevelPrompt.CustomAddDisablesButton | src/components/world-builder/AddLevelPrompt.js:84-85 | after a custom add, accepted or refused, the custom button is disabled |
| AddLevelPrompt.EditReenablesButton | src/components/world-builder/AddLevelPrompt.js:78-85 | after an edit the custom button is enabled exactly when the field is not empty |
| AddLevelPrompt.CaseVariantRefused | src/components/world-builder/AddLevelPrompt.js:28-31 | a name equal to an existing level up to case is never handed on |
| AddLevelPrompt.PaddedNameAccepted | src/components/world-builder/AddLevelPrompt.js:23-34 | trimming is only a blankness test: the existing name with a leading space is accepted as a new level |
| AddLevelPrompt.FirstSuggestionsAccepted | src/components/world-builder/AddLevelPrompt.js:58-61 | each first suggestion is accepted while the hierarchy is empty |
| AddLevelPrompt.AddLevel | src/components/world-builder/AddLevelPrompt.js:22-36 | the builder takes the `onAddLevel` step exactly when the prompt accepts the name, and is unchanged otherwise |
| AddLevelPrompt.AddLevelKeepsNoCaseDuplicates | src/components/world-builder/AddLevelPrompt.js:22-36 | adding through the prompt keeps the hierarchy free of levels that differ only in case |
| AddLevelPrompt.PromptedHierarchyHasNoCaseDuplicates | src/components/world-builder/AddLevelPrompt.js:22-36 | from the initial state, every sequence of names offered to the prompt leaves a hierarchy without case duplicates |
| App.HandleWorldCreation | src/App.js:11-26 | a description under 50 characters changes nothing; otherwise the world is generated with it, the hierarchy and entities are empty, associations, inventory and NPCs are kept, the level is `addLevel` and loading has ended |
| App.CreatedWorldShowsAddLevel | src/App.js:16-25 | a created world shows the add-level prompt and has no case-duplicate levels |
| App.WorldCreationIdempotent | src/App.js:11-26 | creating the world twice from one description is the same as creating it once |
| App.HandleComplete | src/App.js:28-30 | only the completion flag is set |
| App.CurrentView | src/App.js:35-46 | the completion screen is shown exactly when the completion flag is set; otherwise the generation screen's current step |
| App.StartsWithWorldCreation | src/App.js:35-46 | the initial state shows the world-creation step |
| App.CompleteShowsCompletion | src/App.js:28-46 | after completing, the completion screen is shown from any step |
| NpcManager.FormFields | src/components/world-builder/NPCManager.js:11-17 | the form is an object with exactly the five fields and their values |
| NpcManager.InitialPanel | src/components/world-builder/NPCManager.js:6-17 | the list starts as the entity's NPCs, or empty when it has none; the form is empty and everything is hidden or idle |
| NpcManager.HandleUpdateNpc | src/components/world-builder/NPCManager.js:42-48 | each NPC with the id gets the updates merged over its fields; the others, the length and the order stay; the parent receives the same new list |
| NpcManager.UpdateKeepsIds | src/components/world-builder/NPCManager.js:43-45 | updates without an `id` field keep every NPC's id |
| NpcManager.HandleDeleteNpc | src/components/world-builder/NPCManager.js:50-54 | no NPC with the id is left; every other NPC is kept, in its original order, each occurrence of it (the length drops by exactly the number of NPCs with the id); nothing new appears; the parent receives the same list |
| NpcManager.DeleteAbsentIdKeepsList | src/components/world-builder/NPCManager.js:51 | deleting an id no NPC carries keeps the list as it was |
| NpcManager.RemoveNothing | src/components/world-builder/NPCManager.js:51 | a filter that matches nothing returns the list itself |
| NpcManager.NewNpc | src/components/world-builder/NPCManager.js:59-62 | the new NPC has an `npc-` id and exactly the form's fields and values |
| NpcManager.HandleCreateNpc | src/components/world-builder/NPCManager.js:56-77 | an empty name or role does nothing (spaces count as text); otherwise the NPC is appended, the form is emptied and hidden, and the parent receives the new list |
| NpcManager.CreateDisabledIffNoOp | src/components/world-builder/NPCManager.js:57-66 | the create button is disabled exactly when creating would report nothing |
| NpcManager.CreatedNpcIsLast | src/components/world-builder/NPCManager.js:59-66 | the created NPC sits last with its `npc-` id, name and role, and the earlier NPCs are untouched |
| NpcManager.HandleGenerateNpc | src/components/world-builder/NPCManager.js:19-40 | a generated NPC is appended and the success notice shown; a failure leaves the list unchanged and reports nothing; loading ends either way |
| NpcManager.EditKeepsParentInStep | src/components/world-builder/NPCManager.js:29-66 | after any one edit, the parent's copy equals the panel's list |
| NpcManager.ParentStaysInStep | src/components/world-builder/NPCManager.js:19-77 | starting from the same list, the parent's copy equals the panel's list after any sequence of edits |
| CompletionScreen.InitialCompletion | src/components/world-builder/CompletionScreen.js:5-12 | the screen starts with an empty item form with quantity 1, and every flag off |
| CompletionScreen.ParseQuantity | src/components/world-builder/CompletionScreen.js:120 | `parseInt(text) \|\| 1`: NaN and 0 become 1, any other number is kept, so the quantity is never 0 |
| CompletionScreen.ParseQuantityReadsDecimal | src/components/world-builder/CompletionScreen.js:120 | a typed positive number is read back as the quantity |
| CompletionScreen.HandleQuantityInput | src/components/world-builder/CompletionScreen.js:120 | only the form's quantity changes, and it is never 0 |
| CompletionScreen.HandleGenerateInventory | src/components/world-builder/CompletionScreen.js:14-20 | the inventory is replaced wholesale, the rest of the data stays, the screen is unsaved and loading ends |
| CompletionScreen.AsWrittenInventoryIsFallback | src/components/world-builder/CompletionScreen.js:14-20 | as wired, the generated inventory is always the single fallback item, so a reply listing any other number of items is never reflected |
| CompletionScreen.HandleGenerateInventoryCorrected | src/components/world-builder/CompletionScreen.js:14-20 | with the world data passed as the context, the inventory becomes the listed items, tagged, in order, or the fallback item after a failure; the rest of the data stays and the screen is unsaved |
| CompletionScreen.HandleUpdateItem | src/components/world-builder/CompletionScreen.js:22-28 | each item with the id is merged with the updates; the other items, the length and the order stay; the screen is unsaved |
| CompletionScreen.UpdateItemKeepsIds | src/components/world-builder/CompletionScreen.js:23-25 | an item edit keeps every item's id |
| CompletionScreen.EditedQuantityNeverZero | src/components/world-builder/CompletionScreen.js:154 | typing in an item's quantity box never stores 0 |
| CompletionScreen.CustomItem | src/components/world-builder/CompletionScreen.js:33-36 | a custom item has a `custom-` id, the form's name and quantity, and no category or description |
| CompletionScreen.HandleAddItem | src/components/world-builder/CompletionScreen.js:30-43 | a blank name does nothing; otherwise the item is appended, the form resets to an empty name with quantity 1 and is hidden, and the screen is unsaved |
| CompletionScreen.AddItemDisabledIffNoOp | src/components/world-builder/CompletionScreen.js:31-42 | the add button is disabled exactly when adding would not change the inventory, and an accepted add disables it again |
| CompletionScreen.SpacesOnlyNameRefused | src/components/world-builder/CompletionScreen.js:31 | a name made only of spaces is refused |
| CompletionScreen.HandleSaveChanges | src/components/world-builder/CompletionScreen.js:45-47 | only the unsaved flag is cleared |
| CompletionScreen.SaveAfterEditKeepsEdit | src/components/world-builder/CompletionScreen.js:22-47 | an edit marks the screen unsaved; saving afterwards clears the flag and keeps the edit |
| GameAI.SuggestLevels | src/utils/gameAI.js:11-55 | the reply's suggestions, or the fixed four names after any failure |
| GameAI.CompletionText | src/utils/gameAI.js:57-128 | the reply trimmed, which neither starts nor ends with white space; a failure is passed on |
| GameAI.TextOrErrorMessage | src/utils/gameAI.js:287-338 | the reply untouched, or the error's message in its place |
| GameAI.PluralizeFallback | src/utils/gameAI.js:280-284 | a word ending in `s` is kept; otherwise a final `y` becomes `ies`; otherwise `s` is appended; the result always ends in `s` |
| GameAI.Pluralize | src/utils/gameAI.js:262-285 | the trimmed reply, or the fallback rules after a failure |
| GameAI.SingularUndoesPluralize | src/utils/gameAI.js:281-283 | for a word ending in neither `s` nor `y`, the singular of the fallback plural is the word |
| GameAI.SingularOfPluralizedY | src/utils/gameAI.js:282 | for a word ending in `y`, the singular of the fallback plural ends in `ie`, not `y` |
| GameAI.TagItem | src/utils/gameAI.js:173-176 | the item gets a `category-` prefixed id (`undefined-` without a category) unless it has an id of its own, which wins; every other field is copied |
| GameAI.GenerateInventory | src/utils/gameAI.js:130-190 | every listed item is tagged, in order; any failure gives the single fallback item |
| GameAI.GenerateInventoryFor | src/utils/gameAI.js:130-190 | with a world context, the reply is handled as above; with bare text, reading `world.description` throws inside the `try`, so the result is the single fallback item |
| GameAI.MissingFields | src/utils/gameAI.js:231-232 | the missing fields are exactly the required fields that are absent or empty, listed in the required order |
| GameAI.JoinContainsEach | src/utils/gameAI.js:235 | every part appears in the joined text |
| GameAI.MissingFieldsErrorNamesEach | src/utils/gameAI.js:234-236 | the missing-fields error names each missing field |
| GameAI.RemapError | src/utils/gameAI.js:253-257 | only the parse failure is reworded; any other message is kept |
| GameAI.NameUniqueAmong | src/utils/gameAI.js:193-197 | unique exactly when every existing NPC has a name that differs up to case; `false` only with a real match; the check throws exactly when a nameless NPC comes before any match, because `some` stops at the first match |
| GameAI.MatchBeforeNamelessIsNotUnique | src/utils/gameAI.js:194-196 | a match before any nameless NPC gives "not unique", whatever follows it |
| GameAI.NpcNames | src/utils/gameAI.js:239 | one name per NPC, in order |
| GameAI.NameUniqueAmongNamed | src/utils/gameAI.js:193-197 | when every NPC has a name, the NPC check is the level-name check on the names |
| GameAI.NameCheckFindsMatch | src/utils/gameAI.js:194-196 | when every NPC has a name, the check always gives an answer |
| GameAI.ErrorsAreNotParseFailure | src/utils/gameAI.js:227-257 | none of the checks' own messages equals the parse-failure message |
| GameAI.CheckNpc | src/utils/gameAI.js:230-246 | missing fields are reported first; an object is accepted exactly when no field is missing and its name is unique; a clash gives the not-unique error; an accepted object has the `npc-` id spread under its own fields |
| GameAI.GenerateNpc | src/utils/gameAI.js:192-259 | a call error is rethrown with only the parse failure reworded; unparseable text gives the reworded parse failure; a parsed object passes through the checks, and only it can be accepted |
| GameAI.AcceptedNpcComplete | src/utils/gameAI.js:231-236 | an accepted NPC carries all eight required fields, none of them empty |
| GameAI.AcceptedNameIsNew | src/utils/gameAI.js:239-241 | an accepted NPC's name differs, case aside, from every existing NPC's name |
| GameAI.ParsedIdOverrides | src/utils/gameAI.js:243-246 | a parsed `id` overrides the generated `npc-` id, which is used otherwise |
| GameAI.LastN | src/utils/gameAI.js:347 | `slice(-n)` is the last `n` elements, or the whole of a shorter list |
| GameAI.ToTurn | src/utils/gameAI.js:347-350 | a message becomes a user turn exactly when its type is `user`, with its content |
| GameAI.BuildActionRequest | src/utils/gameAI.js:343-358 | at most the last five messages become chat turns, in order; the previous messages are the last ten; the action is passed as typed |
| GameAI.TurnsAreTailOfPreviousMessages | src/utils/gameAI.js:347-356 | the chat turns replay the tail of the previous messages, in order |
| GameAI.InventoryAssistant | src/utils/gameAI.js:383-420 | the parsed reply, or valid with no changes and no message after any failure |
| GameAI.HandleGameAction | src/utils/gameAI.js:340-381 | the narration with the assistant's changes (none when absent), or the error's message with no changes when the narration fails |
| GameAI.FailedAssistantChangesNothing | src/utils/gameAI.js:367-371 | a failing assistant never changes the inventory |
| MockAI.SuggestionKey | src/utils/mockAI.js:14 | the last level, or `world` when there is none or it is empty; never empty |
| MockAI.SuggestLevels | src/utils/mockAI.js:5-15 | the table row of the key, or the default row for an unknown key; always four names |
| MockAI.FirstSuggestions | src/utils/mockAI.js:6-15 | with no levels the mock offers kingdoms, empires, realms and continents |
| MockAI.Pick | src/utils/mockAI.js:45 | `Math.floor(random * n)` is a valid position |
| MockAI.TemplateParts | src/utils/mockAI.js:21-44 | three templates for every level; an unknown level uses the default ones |
| MockAI.GenerateEntityDescription | src/utils/mockAI.js:18-46 | the description is one of the level's three templates filled with the name, so it contains the name; an unknown level uses a default template |
| MockAI.MockItem | src/utils/mockAI.js:68-77 | an item of the category, with a name from its list, a quantity from 1 to 3, a `category-` id and a description naming the category without its last letter |
| MockAI.CategoryNamesDistinct | src/utils/mockAI.js:52-57 | no two categories share a name |
| MockAI.DistinctCategoriesDistinctItems | src/utils/mockAI.js:71-77 | items from different categories have different categories |
| MockAI.ShuffledItemsDistinct | src/utils/mockAI.js:61-78 | items drawn in shuffled order never repeat a category |
| MockAI.GenerateInventory | src/utils/mockAI.js:48-81 | the loop returns exactly `min(5, 4) = 4` items, item `k` drawn from the `k`-th shuffled category, with no category repeated |

## Left out

- The calls to the completion service, including `JSON.parse`, `JSON.stringify`, the prompt text and the model settings in `src/config`. Each call is a `Result` parameter, and a parsed reply is taken as already typed.
- Delays and timers: the `setTimeout` delays of the mock and of world creation, and the success-notice timer of the NPC panel.
- The `Math.random().toString(36)` suffixes, the random numbers and the `sort(() => Math.random() - 0.5)` shuffle. They are parameters: the shuffle is any permutation of the four categories, and nothing is claimed about global uniqueness of the suffixed ids.
- Rendering, JSX and styling: `WorldCreation.js`, `ProgressBar.js`, `tailwind.config.js` and the DOM-based `useContainerWidth.js`.
- `Game.js`: browser storage, `window.confirm`, navigation and a timer-driven echo. It has no logic beyond appending a message.
- Purely visual UI state that no other state depends on: `editingEntity`, `editingItem` and `editingNPC`. The hook's `currentPhase` is kept in the state with its initial value; no handler ever changes it.
- React batching. `autoConnectSingleParent` and the generation handlers read the `worldData` of the render in which they were called. The model applies the steps one after another on the current state.
- WorldBuilder.GenerateEntities: the uniqueness predicate is a parameter. The hook imports `isEntityNameUnique`, which `src/utils/validation.js` does not export. The model does not say what such a call does.
- NpcManager.HandleGenerateNpc: the generator is a `Result` parameter, because the panel calls `mockAI.generateNPCs`, which `src/utils/mockAI.js` does not define.
- App.HandleWorldCreation: it takes the description as a string. The create button passes its click event instead.
- `toLowerCase` covers ASCII letters only, with no Unicode case mapping. String length counts characters, not UTF-16 code units.
- Text.ParseInt: reads decimal text only. It does not model the `0x` prefix, numbers beyond `Number.MAX_SAFE_INTEGER`, or the `e.target.value` of a number input, which is already sanitised by the browser.
- MockAI.SuggestLevels and MockAI.TemplateParts: keys inherited from `Object.prototype` (such as `constructor`) are not modelled. In JavaScript those keys would find a function instead of a row.
- GameAI.SuggestLevels: a reply without a `suggestions` field returns `undefined` in the source. The model's reply is the parsed list.
- GameAI.MissingFields: only text values are modelled. Empty means the empty string, so falsy numbers, `false` and `null` are not covered.
- GameAI.BuildActionRequest: the hour of the day that is sent with each action (`new Date().getHours()`) is left out.
- WorldBuilder.UpdateEntity and GenerationPhase.HandleEntityUpdate: both require the level to hold a list, because the source maps over it and throws when it is absent.

## Findings

| source | as written | input that shows it | evidently intended | confidence | as-written member | corrected member |
|---|---|---|---|---|---|---|
| src/hooks/useWorldBuilder.js:85-86 | the parent of the first level is read as `hierarchy[-1]`, which is `undefined`, so `entities["undefined"]` is used | hierarchy `["kingdoms", "undefined"]`, entities `{"undefined": [e]}`, `autoConnectSingleParent("kingdoms")`: the first level is linked to `e` | the first level has no parent level, so nothing is linked | low, not executed; the screens call it only for the last of two or more levels, so the input cannot arise through them | WorldBuilder.AsWrittenFirstLevelGetsParent | WorldBuilder.ParentEntities |
| src/components/world-builder/CompletionScreen.js:16 | the hook's `generateInventory` (src/hooks/useWorldBuilder.js:142) is the service's, which reads `worldContext.world.description` inside its `try` (src/utils/gameAI.js:152); the screen passes the description text, so that read throws and is caught | any world, pressing the generate button, with any reply of the service: the inventory becomes `[supplies-fallback1]` | the world data is passed, and the service's items become the inventory | high, not executed | CompletionScreen.AsWrittenInventoryIsFallback | CompletionScreen.HandleGenerateInventoryCorrected |
