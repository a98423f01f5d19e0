/**
 * The older count-and-generate panel. Its generate handler performs the same
 * steps as the generation screen's, so it is defined by that one; its
 * contract restates what the panel promises on its own.
 */
module AssociationPhase {
  import opened Text
  import opened Records
  import opened WorldBuilder
  import GenerationPhase

  /**
   * `handleGenerateEntities`: the current level's entities are replaced by
   * `count` freshly generated ones, every other level and the rest of the
   * state are kept, loading ends and the list is shown; with more than one
   * level and a lone parent above, every new entity is linked to it.
   */
  method HandleGenerateEntities(s: BuilderState, o: EntityOracle) returns (t: BuilderState)
    ensures !t.isGenerating && t.showGeneratedEntities
    ensures t == s.(data := t.data, isGenerating := false, showGeneratedEntities := true)
    ensures t.data == s.data.(entities := t.data.entities, associations := t.data.associations)
    ensures t.data.entities.Keys == s.data.entities.Keys + {s.currentLevel}
    ensures forall l :: l in s.data.entities && l != s.currentLevel ==> t.data.entities[l] == s.data.entities[l]
    ensures |t.data.entities[s.currentLevel]| == if s.entityCount > 0 then s.entityCount else 0
    ensures forall k :: 0 <= k < |t.data.entities[s.currentLevel]| ==>
      t.data.entities[s.currentLevel][k] == EntityAt(s.currentLevel, k, o)
    ensures forall k :: 0 <= k < |t.data.entities[s.currentLevel]| ==>
      t.data.entities[s.currentLevel][k].id == EntityId(s.currentLevel, k)
    ensures |s.data.hierarchy| <= 1 || |ParentEntities(s.data, s.currentLevel)| != 1 ==>
      t.data.associations == s.data.associations
    ensures |s.data.hierarchy| > 1 && |ParentEntities(s.data, s.currentLevel)| == 1 ==>
      t.data.associations ==
        s.data.associations + LinksTo(t.data.entities[s.currentLevel], ParentEntities(s.data, s.currentLevel)[0].id)
  {
    t := GenerationPhase.HandleGenerateEntities(s, o);
  }

  /**
   * The count field and the generate button: text that does not start with a
   * number gives 0 and disables the button; a written number is read back,
   * and the button is enabled exactly when it is not 0 and nothing is loading.
   */
  lemma CountGuard(s: BuilderState, text: string, n: nat)
    ensures ParseInt(text).None? ==> GenerationPhase.GenerateDisabled(GenerationPhase.HandleCountInput(s, text))
    ensures GenerationPhase.GenerateDisabled(GenerationPhase.HandleCountInput(s, Decimal(n))) <==>
      s.isGenerating || n == 0
  {
    GenerationPhase.CountFromInputReadsDecimal(n);
  }
}
