/** The top-level handlers: creating the world from its description, and finishing. */
module App {
  import opened WorldBuilder
  import opened GenerationPhase
  import Validation

  /** The shortest description that creates a world. */
  const MinDescriptionLength: nat := 50

  /**
   * `handleWorldCreation(description)`: a description under 50 characters
   * changes nothing; otherwise the world is marked generated with that
   * description, the hierarchy and entities start over, the other data is
   * kept, the wizard moves to the add-level step and loading has ended.
   */
  function HandleWorldCreation(s: BuilderState, description: string): (t: BuilderState)
    ensures |description| < MinDescriptionLength ==> t == s
    ensures |description| >= MinDescriptionLength ==>
      && t.data.world == World(description, true)
      && t.data.hierarchy == [] && t.data.entities == map[]
      && t.data.associations == s.data.associations
      && t.data.inventory == s.data.inventory
      && t.data.npcs == s.data.npcs
      && t.currentLevel == "addLevel" && !t.isGenerating
      && t == s.(data := t.data, currentLevel := "addLevel", isGenerating := false)
  {
    if |description| < MinDescriptionLength then s
    else s.(data := s.data.(world := World(description, true), hierarchy := [], entities := map[]),
            currentLevel := "addLevel", isGenerating := false)
  }

  /** A created world starts with a hierarchy that trivially has no case duplicates, and shows the add-level prompt. */
  lemma CreatedWorldShowsAddLevel(s: BuilderState, description: string)
    requires |description| >= MinDescriptionLength
    ensures CurrentScreen(HandleWorldCreation(s, description)) == AddLevelScreen
    ensures Validation.NoCaseDuplicates(HandleWorldCreation(s, description).data.hierarchy)
  {
  }

  /** Creating a world from the same description again leaves the state as it was. */
  lemma WorldCreationIdempotent(s: BuilderState, description: string)
    ensures HandleWorldCreation(HandleWorldCreation(s, description), description) == HandleWorldCreation(s, description)
  {
  }

  /** `handleComplete`: only the completion flag is set. */
  function HandleComplete(s: BuilderState): (t: BuilderState)
    ensures t.isComplete && t == s.(isComplete := true)
  {
    s.(isComplete := true)
  }

  /** What the app renders: the completion screen, or a step of the generation screen. */
  datatype View = CompletionView | GenerationView(screen: Screen)

  /** `isComplete` alone decides between completion and generation. */
  function CurrentView(s: BuilderState): (v: View)
    ensures v == CompletionView <==> s.isComplete
    ensures !s.isComplete ==> v == GenerationView(CurrentScreen(s))
  {
    if s.isComplete then CompletionView else GenerationView(CurrentScreen(s))
  }

  /** The app opens on the world-creation step. */
  lemma StartsWithWorldCreation()
    ensures CurrentView(InitialState()) == GenerationView(WorldCreationScreen)
  {
  }

  /** Completing switches to the completion screen from any step. */
  lemma CompleteShowsCompletion(s: BuilderState)
    ensures CurrentView(HandleComplete(s)) == CompletionView
  {
  }
}
