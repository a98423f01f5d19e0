/**
 * The generation screen: which step of the wizard it shows, the entity-count
 * input, generating the current level's entities, editing them, choosing
 * their parents, and adding the next level.
 */
module GenerationPhase {
  import opened Wrappers
  import opened Text
  import opened Records
  import opened WorldBuilder

  /** What the component renders. */
  datatype Screen = WorldCreationScreen | AddLevelScreen | CountScreen | EntityListScreen

  /**
   * The world-creation step while the world is not yet generated, the
   * add-level prompt on the `addLevel` pseudo-level, then the count form
   * until entities are shown, then the entity list.
   */
  function CurrentScreen(s: BuilderState): (r: Screen)
    ensures r == WorldCreationScreen <==> s.currentLevel == "world" && !s.data.world.generated
    ensures r == AddLevelScreen <==> s.currentLevel == "addLevel"
    ensures r == CountScreen <==>
      !(s.currentLevel == "world" && !s.data.world.generated) && s.currentLevel != "addLevel" && !s.showGeneratedEntities
  {
    if s.currentLevel == "world" && !s.data.world.generated then WorldCreationScreen
    else if s.currentLevel == "addLevel" then AddLevelScreen
    else if !s.showGeneratedEntities then CountScreen
    else EntityListScreen
  }

  // ---------------------------------------------------------------- entity count

  /** `parseInt(text) || 0`: text without a leading number counts as zero. */
  function CountFromInput(text: string): (n: int)
    ensures ParseInt(text).None? ==> n == 0
    ensures ParseInt(text).Some? ==> n == ParseInt(text).value
  {
    ParseInt(text).GetOr(0)
  }

  /** The number a template literal writes is read back as the count. */
  lemma CountFromInputReadsDecimal(n: nat)
    ensures CountFromInput(Decimal(n)) == n
  {
    ParseIntDecimal(n);
  }

  function HandleCountInput(s: BuilderState, text: string): (t: BuilderState)
    ensures t == s.(entityCount := CountFromInput(text))
  {
    s.(entityCount := CountFromInput(text))
  }

  /** The generate button is disabled while generating or when the count is zero. */
  predicate GenerateDisabled(s: BuilderState) {
    s.isGenerating || s.entityCount == 0
  }

  /** Text that does not start with a number disables the generate button. */
  lemma NonNumericCountDisablesGenerate(s: BuilderState, text: string)
    requires ParseInt(text).None?
    ensures HandleCountInput(s, text).entityCount == 0
    ensures GenerateDisabled(HandleCountInput(s, text))
  {
  }

  // ---------------------------------------------------------------- generation

  /**
   * `handleGenerateEntities`: the current level's list is replaced by freshly
   * generated entities, the loading flag ends false and the list is shown;
   * with more than one level, the lone-parent link is then tried.
   */
  method HandleGenerateEntities(s: BuilderState, o: EntityOracle) returns (t: BuilderState)
    ensures !t.isGenerating && t.showGeneratedEntities
    ensures t == s.(data := t.data, isGenerating := false, showGeneratedEntities := true)
    ensures t.data == s.data.(entities := t.data.entities, associations := t.data.associations)
    ensures t.data.entities.Keys == s.data.entities.Keys + {s.currentLevel}
    ensures forall l :: l in s.data.entities && l != s.currentLevel ==> t.data.entities[l] == s.data.entities[l]
    ensures |t.data.entities[s.currentLevel]| == if s.entityCount > 0 then s.entityCount else 0
    ensures forall k :: 0 <= k < |t.data.entities[s.currentLevel]| ==>
      t.data.entities[s.currentLevel][k] == EntityAt(s.currentLevel, k, o)
    ensures |s.data.hierarchy| <= 1 || |ParentEntities(s.data, s.currentLevel)| != 1 ==>
      t.data.associations == s.data.associations
    ensures |s.data.hierarchy| > 1 && |ParentEntities(s.data, s.currentLevel)| == 1 ==>
      t.data.associations ==
        s.data.associations + LinksTo(t.data.entities[s.currentLevel], ParentEntities(s.data, s.currentLevel)[0].id)
    ensures |s.data.hierarchy| > 1 && |ParentEntities(s.data, s.currentLevel)| == 1 ==>
      forall c :: c in t.data.entities[s.currentLevel] ==>
        c.id in t.data.associations && t.data.associations[c.id] == ParentEntities(s.data, s.currentLevel)[0].id
    ensures forall id :: id in s.data.associations && id !in IdSet(t.data.entities[s.currentLevel]) ==>
      id in t.data.associations && t.data.associations[id] == s.data.associations[id]
  {
    var generated := GenerateEntities(s.currentLevel, s.entityCount, o);
    var data := s.data.(entities := s.data.entities[s.currentLevel := generated]);
    t := s.(data := data, isGenerating := false, showGeneratedEntities := true);
    assert EntitiesOf(data.entities, s.currentLevel) == generated;
    match ParentLevel(s.data.hierarchy, s.currentLevel) {
      case None =>
      case Some(p) => assert EntitiesOf(data.entities, p) == EntitiesOf(s.data.entities, p);
    }
    assert ParentEntities(data, s.currentLevel) == ParentEntities(s.data, s.currentLevel);
    if |s.data.hierarchy| > 1 {
      var _, linked := AutoConnectSingleParent(data, s.currentLevel);
      t := t.(data := linked);
    }
  }

  // ---------------------------------------------------------------- edits and links

  /**
   * `handleEntityUpdate(entityId, updates)`: the matching entity of the current
   * level is merged; its list keeps length and order, other levels and the
   * rest of the state are untouched.
   */
  function HandleEntityUpdate(s: BuilderState, entityId: string, patch: EntityPatch): (t: BuilderState)
    requires s.currentLevel in s.data.entities
    ensures t == s.(data := s.data.(entities := t.data.entities))
    ensures t.data.entities.Keys == s.data.entities.Keys
    ensures forall l :: l in s.data.entities && l != s.currentLevel ==> t.data.entities[l] == s.data.entities[l]
    ensures |t.data.entities[s.currentLevel]| == |s.data.entities[s.currentLevel]|
    ensures forall k :: 0 <= k < |s.data.entities[s.currentLevel]| ==>
      var e := s.data.entities[s.currentLevel][k];
      t.data.entities[s.currentLevel][k] == if e.id == entityId then MergeEntity(e, patch) else e
  {
    s.(data := UpdateEntity(s.data, s.currentLevel, entityId, patch))
  }

  /** `handleAssociation(childId, parentId)`: exactly one link is set; all others stay. */
  function HandleAssociation(s: BuilderState, childId: string, parentId: string): (t: BuilderState)
    ensures t == s.(data := s.data.(associations := t.data.associations))
    ensures t.data.associations.Keys == s.data.associations.Keys + {childId}
    ensures t.data.associations[childId] == parentId
    ensures forall id :: id in s.data.associations && id != childId ==>
      t.data.associations[id] == s.data.associations[id]
  {
    s.(data := s.data.(associations := s.data.associations[childId := parentId]))
  }

  /** The value the parent `<select>` shows for a child: `associations[id] || ''`. */
  function SelectedParent(s: BuilderState, childId: string): string {
    if childId in s.data.associations then s.data.associations[childId] else ""
  }

  /** The select shows the parent just chosen; the blank option stores and shows `''`. */
  lemma SelectShowsChosenParent(s: BuilderState, childId: string, parentId: string)
    ensures SelectedParent(HandleAssociation(s, childId, parentId), childId) == parentId
    ensures HandleAssociation(s, childId, "").data.associations[childId] == ""
  {
  }

  // ---------------------------------------------------------------- levels

  /**
   * The `onAddLevel` callback: the name goes at the end of the hierarchy,
   * becomes the current level, and the count step starts over.
   */
  function OnAddLevel(s: BuilderState, levelName: string): (t: BuilderState)
    ensures t.data.hierarchy == s.data.hierarchy + [levelName]
    ensures t.currentLevel == levelName && !t.showGeneratedEntities && t.entityCount == 0
    ensures t == s.(data := s.data.(hierarchy := t.data.hierarchy), currentLevel := levelName,
                    showGeneratedEntities := false, entityCount := 0)
  {
    s.(data := s.data.(hierarchy := s.data.hierarchy + [levelName]),
       currentLevel := levelName, showGeneratedEntities := false, entityCount := 0)
  }

  /** After adding an ordinary level the wizard asks how many entities to create. */
  lemma AddedLevelShowsCountForm(s: BuilderState, levelName: string)
    requires s.data.world.generated
    requires levelName != "addLevel"
    ensures CurrentScreen(OnAddLevel(s, levelName)) == CountScreen
  {
  }

  /** A level named `addLevel` is accepted, and then the wizard stays on the add-level prompt. */
  lemma LevelNamedAddLevelKeepsPrompt(s: BuilderState)
    ensures CurrentScreen(OnAddLevel(s, "addLevel")) == AddLevelScreen
  {
  }

  /**
   * The parent level the entity list offers: `hierarchy[i - 1]` when the
   * current level sits at position `i > 0`, none otherwise.
   */
  function ShownParentLevel(s: BuilderState): (r: Option<string>)
    ensures r.Some? <==> IndexOf(s.data.hierarchy, s.currentLevel) > 0
    ensures r.Some? ==> r.value == s.data.hierarchy[IndexOf(s.data.hierarchy, s.currentLevel) - 1]
  {
    var i := IndexOf(s.data.hierarchy, s.currentLevel);
    if i > 0 then Some(s.data.hierarchy[i - 1]) else None
  }

  /** `parentLevel ? entities[parentLevel] || [] : []` (an empty name is falsy). */
  function ShownParentEntities(s: BuilderState): (r: seq<Entity>)
    ensures ShownParentLevel(s).None? ==> r == []
    ensures ShownParentLevel(s).Some? && ShownParentLevel(s).value !in s.data.entities ==> r == []
    ensures ShownParentLevel(s) == Some("") ==> r == []
    ensures ShownParentLevel(s).Some? && ShownParentLevel(s).value != "" && ShownParentLevel(s).value in s.data.entities ==>
      r == s.data.entities[ShownParentLevel(s).value]
  {
    match ShownParentLevel(s)
    case None => []
    case Some(p) => if p == "" then [] else EntitiesOf(s.data.entities, p)
  }

  /** The list offers the same parents the automatic link uses, unless the parent level is unnamed. */
  lemma ShownParentsMatchAutoConnect(s: BuilderState)
    requires ShownParentLevel(s) != Some("")
    ensures ShownParentEntities(s) == ParentEntities(s.data, s.currentLevel)
  {
  }

  /** The label above the parent choice: `Parent <singular>:`. */
  function ParentLabel(parentLevel: string): (r: string)
    ensures EndsWith(parentLevel, 's') ==> r == "Parent " + DropLast(parentLevel) + ":"
    ensures !EndsWith(parentLevel, 's') ==> r == "Parent " + parentLevel + ":"
  {
    "Parent " + Singular(parentLevel) + ":"
  }
}
