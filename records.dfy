/**
 * The records the world builder keeps in lists (entities, NPCs, inventory
 * items) and the three ways its handlers edit such a list: `map` with a
 * merge of the record whose id matches, `filter` on the id, and append.
 */
module Records {
  import opened Wrappers

  /** A named place generated at one hierarchy level. */
  datatype Entity = Entity(id: string, name: string, description: string, needsDescription: bool)

  /** The fields of an `{ ...entity, ...updates }` edit; an absent field keeps its value. */
  datatype EntityPatch = EntityPatch(name: Option<string>, description: Option<string>, needsDescription: Option<bool>)

  function MergeEntity(e: Entity, p: EntityPatch): Entity {
    e.(name := p.name.GetOr(e.name),
       description := p.description.GetOr(e.description),
       needsDescription := p.needsDescription.GetOr(e.needsDescription))
  }

  /**
   * A non-player character is a plain object of text fields, `id` among them;
   * `{ ...npc, ...updates }` is then the map union `npc + updates`.
   */
  type Npc = map<string, string>

  /** `npc.id === id` */
  predicate NpcHasId(npc: Npc, id: string) {
    "id" in npc && npc["id"] == id
  }

  /** `npc.name`, read as the empty name when absent. */
  function NpcName(npc: Npc): string {
    if "name" in npc then npc["name"] else ""
  }

  /** An inventory item; `category` and `description` are absent on items the user adds. */
  datatype Item = Item(id: string, name: string, quantity: int, category: Option<string>, description: Option<string>)

  /** The fields the item editor changes. */
  datatype ItemPatch = ItemPatch(name: Option<string>, quantity: Option<int>)

  function MergeItem(item: Item, p: ItemPatch): Item {
    item.(name := p.name.GetOr(item.name), quantity := p.quantity.GetOr(item.quantity))
  }

  // ---------------------------------------------------------------- list edits

  /** `xs.map(x => hit(x) ? f(x) : x)`: same length, same order, only hits replaced. */
  function MapWhere<T>(xs: seq<T>, hit: T -> bool, f: T -> T): (r: seq<T>)
    ensures |r| == |xs|
    ensures forall k :: 0 <= k < |xs| ==> r[k] == (if hit(xs[k]) then f(xs[k]) else xs[k])
    decreases |xs|
  {
    if xs == [] then []
    else [if hit(xs[0]) then f(xs[0]) else xs[0]] + MapWhere(xs[1..], hit, f)
  }

  /** How many elements of `xs` satisfy `hit`. */
  function CountWhere<T>(xs: seq<T>, hit: T -> bool): (n: nat)
    ensures n <= |xs|
    decreases |xs|
  {
    if xs == [] then 0 else (if hit(xs[0]) then 1 else 0) + CountWhere(xs[1..], hit)
  }

  /** `r` is `xs` with some elements left out and the rest in their original order. */
  ghost predicate IsSubsequence<T>(r: seq<T>, xs: seq<T>)
    decreases |xs|
  {
    if r == [] then true
    else if xs == [] then false
    else (r[0] == xs[0] && IsSubsequence(r[1..], xs[1..])) || IsSubsequence(r, xs[1..])
  }

  /**
   * `xs.filter(x => !hit(x))`: every hit is gone, every other element is kept,
   * in its original order.
   */
  function RemoveWhere<T>(xs: seq<T>, hit: T -> bool): (r: seq<T>)
    ensures forall k :: 0 <= k < |r| ==> !hit(r[k])
    ensures forall x :: x in xs && !hit(x) ==> x in r
    ensures forall x :: x in r ==> x in xs
    ensures IsSubsequence(r, xs)
    ensures |r| == |xs| - CountWhere(xs, hit)
    decreases |xs|
  {
    if xs == [] then []
    else if hit(xs[0]) then RemoveWhere(xs[1..], hit)
    else
      var rest := RemoveWhere(xs[1..], hit);
      assert ([xs[0]] + rest)[1..] == rest;
      [xs[0]] + rest
  }
}
