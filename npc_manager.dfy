/**
 * The non-player-character panel of one entity: a local list of NPCs edited
 * by id, a creation form, and generation through a fallible generator. Every
 * change to the list is also reported to the parent through `onNPCsUpdate`.
 */
module NpcManager {
  import opened Wrappers
  import opened Records

  /** The creation form's five text fields. */
  datatype NpcForm = NpcForm(name: string, role: string, description: string, personality: string, goal: string)

  const EmptyForm: NpcForm := NpcForm("", "", "", "", "")

  /** The form as a plain object. */
  function FormFields(f: NpcForm): (npc: Npc)
    ensures npc.Keys == {"name", "role", "description", "personality", "goal"}
    ensures npc["name"] == f.name && npc["role"] == f.role && npc["description"] == f.description
    ensures npc["personality"] == f.personality && npc["goal"] == f.goal
  {
    map["name" := f.name, "role" := f.role, "description" := f.description,
        "personality" := f.personality, "goal" := f.goal]
  }

  /** The panel's local state. */
  datatype NpcPanel = NpcPanel(npcs: seq<Npc>, form: NpcForm, showForm: bool, showSuccess: bool, isGenerating: bool)

  /** A handler's result: the new panel, and the list passed to `onNPCsUpdate`, if it was called. */
  datatype NpcChange = NpcChange(panel: NpcPanel, reported: Option<seq<Npc>>)

  /** `useState(entity.npcs || [])` and the other initial values. */
  function InitialPanel(entityNpcs: Option<seq<Npc>>): (p: NpcPanel)
    ensures entityNpcs.None? ==> p.npcs == []
    ensures entityNpcs.Some? ==> p.npcs == entityNpcs.value
    ensures p.form == EmptyForm && !p.showForm && !p.showSuccess && !p.isGenerating
  {
    NpcPanel(entityNpcs.GetOr([]), EmptyForm, false, false, false)
  }

  /**
   * `handleUpdateNPC(npcId, updates)`: each NPC with that id gets the updates
   * merged over its fields; every other NPC, the length and the order stay.
   */
  function HandleUpdateNpc(p: NpcPanel, npcId: string, updates: Npc): (r: NpcChange)
    ensures r.panel == p.(npcs := r.panel.npcs)
    ensures |r.panel.npcs| == |p.npcs|
    ensures forall k :: 0 <= k < |p.npcs| ==>
      r.panel.npcs[k] == if NpcHasId(p.npcs[k], npcId) then p.npcs[k] + updates else p.npcs[k]
    ensures r.reported == Some(r.panel.npcs)
  {
    var npcs := MapWhere(p.npcs, (npc: Npc) => NpcHasId(npc, npcId), (npc: Npc) => npc + updates);
    NpcChange(p.(npcs := npcs), Some(npcs))
  }

  /** An update whose fields do not include `id` keeps every NPC's id. */
  lemma UpdateKeepsIds(p: NpcPanel, npcId: string, updates: Npc)
    requires "id" !in updates
    ensures forall k :: 0 <= k < |p.npcs| ==>
      ("id" in HandleUpdateNpc(p, npcId, updates).panel.npcs[k] <==> "id" in p.npcs[k])
    ensures forall k, id :: 0 <= k < |p.npcs| && NpcHasId(p.npcs[k], id) ==>
      NpcHasId(HandleUpdateNpc(p, npcId, updates).panel.npcs[k], id)
  {
  }

  /**
   * `handleDeleteNPC(npcId)`: every NPC with that id is gone; every other NPC
   * is kept, in its original order.
   */
  function HandleDeleteNpc(p: NpcPanel, npcId: string): (r: NpcChange)
    ensures r.panel == p.(npcs := r.panel.npcs)
    ensures forall k :: 0 <= k < |r.panel.npcs| ==> !NpcHasId(r.panel.npcs[k], npcId)
    ensures forall npc :: npc in p.npcs && !NpcHasId(npc, npcId) ==> npc in r.panel.npcs
    ensures forall npc :: npc in r.panel.npcs ==> npc in p.npcs
    ensures IsSubsequence(r.panel.npcs, p.npcs)
    ensures |r.panel.npcs| == |p.npcs| - CountWhere(p.npcs, (npc: Npc) => NpcHasId(npc, npcId))
    ensures r.reported == Some(r.panel.npcs)
  {
    var npcs := RemoveWhere(p.npcs, (npc: Npc) => NpcHasId(npc, npcId));
    NpcChange(p.(npcs := npcs), Some(npcs))
  }

  /** Deleting an id that no NPC carries keeps the list as it was. */
  lemma DeleteAbsentIdKeepsList(p: NpcPanel, npcId: string)
    requires forall k :: 0 <= k < |p.npcs| ==> !NpcHasId(p.npcs[k], npcId)
    ensures HandleDeleteNpc(p, npcId).panel.npcs == p.npcs
  {
    RemoveNothing(p.npcs, (npc: Npc) => NpcHasId(npc, npcId));
  }

  /** `filter` with a test no element passes returns the list itself. */
  lemma {:induction false} RemoveNothing<T>(xs: seq<T>, hit: T -> bool)
    requires forall k :: 0 <= k < |xs| ==> !hit(xs[k])
    ensures RemoveWhere(xs, hit) == xs
    decreases |xs|
  {
    if xs != [] {
      RemoveNothing(xs[1..], hit);
    }
  }

  /** The new NPC: a generated `npc-` id, then the form fields. */
  function NewNpc(f: NpcForm, suffix: string): (npc: Npc)
    ensures npc.Keys == {"id", "name", "role", "description", "personality", "goal"}
    ensures NpcHasId(npc, "npc-" + suffix)
    ensures forall field :: field in FormFields(f) ==> npc[field] == FormFields(f)[field]
  {
    map["id" := "npc-" + suffix] + FormFields(f)
  }

  /** `disabled={!newNPC.name || !newNPC.role}` on the `Create NPC` button. */
  predicate CreateDisabled(p: NpcPanel) {
    p.form.name == "" || p.form.role == ""
  }

  /**
   * `handleCreateNPC`: nothing happens while the name or the role is empty
   * (spaces count as text); otherwise one NPC built from the form goes at the
   * end, and the form is emptied and hidden.
   */
  function HandleCreateNpc(p: NpcPanel, suffix: string): (r: NpcChange)
    ensures CreateDisabled(p) ==> r == NpcChange(p, None)
    ensures !CreateDisabled(p) ==>
      && r.panel.npcs == p.npcs + [NewNpc(p.form, suffix)]
      && r.panel == p.(npcs := r.panel.npcs, form := EmptyForm, showForm := false)
      && r.reported == Some(r.panel.npcs)
  {
    if p.form.name == "" || p.form.role == "" then NpcChange(p, None)
    else
      var npcs := p.npcs + [NewNpc(p.form, suffix)];
      NpcChange(p.(npcs := npcs, form := EmptyForm, showForm := false), Some(npcs))
  }

  /** The create button is disabled exactly when creating would do nothing. */
  lemma CreateDisabledIffNoOp(p: NpcPanel, suffix: string)
    ensures CreateDisabled(p) <==> HandleCreateNpc(p, suffix).reported.None?
  {
  }

  /** A created NPC sits last, carries the `npc-` id and every form field; the NPCs before it are untouched. */
  lemma CreatedNpcIsLast(p: NpcPanel, suffix: string)
    requires !CreateDisabled(p)
    ensures var npcs := HandleCreateNpc(p, suffix).panel.npcs;
      && |npcs| == |p.npcs| + 1
      && npcs[..|p.npcs|] == p.npcs
      && NpcHasId(npcs[|p.npcs|], "npc-" + suffix)
      && NpcName(npcs[|p.npcs|]) == p.form.name
      && npcs[|p.npcs|]["role"] == p.form.role
  {
    var npcs := HandleCreateNpc(p, suffix).panel.npcs;
    assert npcs[|p.npcs|] == NewNpc(p.form, suffix);
  }

  /**
   * `handleGenerateNPC` with the generator's outcome: a generated NPC is
   * appended and the success notice shown; a failure leaves the list as it
   * was and reports nothing. Loading has ended either way.
   */
  function HandleGenerateNpc(p: NpcPanel, generated: Result<Npc>): (r: NpcChange)
    ensures !r.panel.isGenerating
    ensures generated.Ok? ==>
      && r.panel.npcs == p.npcs + [generated.value]
      && r.panel == p.(npcs := r.panel.npcs, showSuccess := true, isGenerating := false)
      && r.reported == Some(r.panel.npcs)
    ensures generated.Err? ==> r == NpcChange(p.(isGenerating := false), None)
  {
    match generated
    case Ok(npc) =>
      var npcs := p.npcs + [npc];
      NpcChange(p.(npcs := npcs, showSuccess := true, isGenerating := false), Some(npcs))
    case Err(_) => NpcChange(p.(isGenerating := false), None)
  }

  // ---------------------------------------------------------------- the parent's copy

  /** An edit the panel can receive. */
  datatype NpcEdit =
    | Update(npcId: string, updates: Npc)
    | Delete(npcId: string)
    | Create(suffix: string)
    | Generate(generated: Result<Npc>)

  function Apply(p: NpcPanel, e: NpcEdit): NpcChange {
    match e
    case Update(id, updates) => HandleUpdateNpc(p, id, updates)
    case Delete(id) => HandleDeleteNpc(p, id)
    case Create(suffix) => HandleCreateNpc(p, suffix)
    case Generate(generated) => HandleGenerateNpc(p, generated)
  }

  /** The parent's copy after an edit: the reported list, or its old copy when nothing was reported. */
  function ParentCopy(parent: seq<Npc>, c: NpcChange): seq<Npc> {
    c.reported.GetOr(parent)
  }

  /** Each edit either reports the new list or leaves the list alone, so one edit keeps a matching parent copy in step. */
  lemma EditKeepsParentInStep(p: NpcPanel, e: NpcEdit)
    ensures ParentCopy(p.npcs, Apply(p, e)) == Apply(p, e).panel.npcs
  {
  }

  /** The panel after a run of edits, with the parent's copy beside it. */
  function ApplyAll(p: NpcPanel, parent: seq<Npc>, edits: seq<NpcEdit>): (NpcPanel, seq<Npc>)
    decreases |edits|
  {
    if edits == [] then (p, parent)
    else
      var c := Apply(p, edits[0]);
      ApplyAll(c.panel, ParentCopy(parent, c), edits[1..])
  }

  /** Started from the same list, the parent's copy equals the panel's list after any run of edits. */
  lemma {:induction false} ParentStaysInStep(p: NpcPanel, edits: seq<NpcEdit>)
    ensures ApplyAll(p, p.npcs, edits).1 == ApplyAll(p, p.npcs, edits).0.npcs
    decreases |edits|
  {
    if edits != [] {
      var c := Apply(p, edits[0]);
      EditKeepsParentInStep(p, edits[0]);
      ParentStaysInStep(c.panel, edits[1..]);
    }
  }
}
