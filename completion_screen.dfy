/**
 * The completion screen's inventory editor: generating a starting inventory,
 * editing items by id, adding custom items, and the unsaved-changes flag.
 */
module CompletionScreen {
  import opened Wrappers
  import opened Text
  import opened Records
  import opened WorldBuilder
  import GameAI

  /** The add-item form. */
  datatype ItemForm = ItemForm(name: string, quantity: int)

  const EmptyItemForm: ItemForm := ItemForm("", 1)

  /** The world data the screen edits, with the screen's own state. */
  datatype Completion = Completion(data: WorldData, newItem: ItemForm, showAddItem: bool, hasUnsavedChanges: bool, generatingInventory: bool)

  function InitialCompletion(data: WorldData): (c: Completion)
    ensures c.data == data && c.newItem == EmptyItemForm
    ensures !c.showAddItem && !c.hasUnsavedChanges && !c.generatingInventory
  {
    Completion(data, EmptyItemForm, false, false, false)
  }

  /**
   * `parseInt(text) || 1`: text without a leading number, and zero, give one;
   * any other number, negative ones included, is kept.
   */
  function ParseQuantity(text: string): (q: int)
    ensures q != 0
    ensures ParseInt(text).None? || ParseInt(text) == Some(0) ==> q == 1
    ensures ParseInt(text).Some? && ParseInt(text).value != 0 ==> q == ParseInt(text).value
  {
    match ParseInt(text)
    case None => 1
    case Some(v) => if v == 0 then 1 else v
  }

  /** A typed positive number is read back as the quantity. */
  lemma ParseQuantityReadsDecimal(n: nat)
    requires n > 0
    ensures ParseQuantity(Decimal(n)) == n
  {
    ParseIntDecimal(n);
  }

  /** The quantity field of the add-item form. */
  function HandleQuantityInput(c: Completion, text: string): (d: Completion)
    ensures d.newItem.quantity != 0
    ensures d == c.(newItem := c.newItem.(quantity := ParseQuantity(text)))
  {
    c.(newItem := c.newItem.(quantity := ParseQuantity(text)))
  }

  /**
   * `handleGenerateInventory` with the generator's inventory: it replaces the
   * inventory wholesale, the rest of the world data stays, and the screen is
   * marked unsaved.
   */
  function HandleGenerateInventory(c: Completion, generated: seq<Item>): (d: Completion)
    ensures d.data.inventory == generated && d.data.(inventory := c.data.inventory) == c.data
    ensures d.hasUnsavedChanges && !d.generatingInventory
    ensures d == c.(data := d.data, hasUnsavedChanges := true, generatingInventory := false)
  {
    c.(data := UpdateInventory(c.data, generated), hasUnsavedChanges := true, generatingInventory := false)
  }

  /**
   * The generate button as wired: the hook's `generateInventory` is the
   * service's, and the screen hands it the world description, a text, where
   * the service reads a world context.
   */
  function HandleGenerateInventoryAsWritten(c: Completion, reply: Result<seq<GameAI.RawItem>>, suffix: nat -> string): Completion {
    HandleGenerateInventory(c, GameAI.GenerateInventoryFor(GameAI.BareText(c.data.world.description), reply, suffix))
  }

  /** As wired, every generated inventory is the single fallback item, even when the service lists items. */
  lemma AsWrittenInventoryIsFallback(c: Completion, reply: Result<seq<GameAI.RawItem>>, suffix: nat -> string)
    ensures HandleGenerateInventoryAsWritten(c, reply, suffix).data.inventory == [GameAI.FallbackItem]
    ensures reply.Ok? && |reply.value| != 1 ==>
      |HandleGenerateInventoryAsWritten(c, reply, suffix).data.inventory| != |reply.value|
  {
  }

  /**
   * The generate button with the world data passed as the context: the listed
   * items, each tagged with an id, in order, or the fallback item after a
   * failure; the rest of the data stays and the screen is unsaved.
   */
  function HandleGenerateInventoryCorrected(c: Completion, reply: Result<seq<GameAI.RawItem>>, suffix: nat -> string): (d: Completion)
    ensures reply.Ok? ==> |d.data.inventory| == |reply.value|
    ensures reply.Ok? ==> forall k :: 0 <= k < |reply.value| ==> d.data.inventory[k] == GameAI.TagItem(reply.value[k], suffix(k))
    ensures reply.Err? ==> d.data.inventory == [GameAI.FallbackItem]
    ensures d.data.(inventory := c.data.inventory) == c.data
    ensures d.hasUnsavedChanges && !d.generatingInventory
  {
    HandleGenerateInventory(c, GameAI.GenerateInventoryFor(GameAI.WorldContext(c.data.world.description), reply, suffix))
  }

  /**
   * `handleUpdateItem(itemId, updates)`: each item with that id is merged with
   * the updates; every other item, the length and the order stay, and the
   * screen is marked unsaved.
   */
  function HandleUpdateItem(c: Completion, itemId: string, patch: ItemPatch): (d: Completion)
    ensures d.hasUnsavedChanges
    ensures d == c.(data := c.data.(inventory := d.data.inventory), hasUnsavedChanges := true)
    ensures |d.data.inventory| == |c.data.inventory|
    ensures forall k :: 0 <= k < |c.data.inventory| ==>
      d.data.inventory[k] == if c.data.inventory[k].id == itemId then MergeItem(c.data.inventory[k], patch) else c.data.inventory[k]
  {
    var inventory := MapWhere(c.data.inventory, (item: Item) => item.id == itemId, (item: Item) => MergeItem(item, patch));
    c.(data := UpdateInventory(c.data, inventory), hasUnsavedChanges := true)
  }

  /** Editing an item never changes an id, so the items keep their identities. */
  lemma UpdateItemKeepsIds(c: Completion, itemId: string, patch: ItemPatch)
    ensures forall k :: 0 <= k < |c.data.inventory| ==>
      HandleUpdateItem(c, itemId, patch).data.inventory[k].id == c.data.inventory[k].id
  {
  }

  /** The quantity box of an item being edited never stores zero. */
  lemma EditedQuantityNeverZero(c: Completion, itemId: string, text: string)
    ensures forall k :: 0 <= k < |c.data.inventory| && c.data.inventory[k].id == itemId ==>
      HandleUpdateItem(c, itemId, ItemPatch(None, Some(ParseQuantity(text)))).data.inventory[k].quantity != 0
  {
  }

  /** `disabled={!newItem.name.trim()}` on the `Add Item` button. */
  predicate AddItemDisabled(c: Completion) {
    IsBlank(c.newItem.name)
  }

  /** The custom item: a `custom-` id, then the form's name and quantity, with no category or description. */
  function CustomItem(f: ItemForm, suffix: string): (item: Item)
    ensures StartsWith(item.id, "custom-")
    ensures item.name == f.name && item.quantity == f.quantity
    ensures item.category.None? && item.description.None?
  {
    var id := "custom-" + suffix;
    assert id[..|"custom-"|] == "custom-";
    Item(id, f.name, f.quantity, None, None)
  }

  /**
   * `handleAddItem`: a blank name does nothing; otherwise the item goes at the
   * end of the inventory with its name as typed, the form resets to an empty
   * name and quantity one and is hidden, and the screen is marked unsaved.
   */
  function HandleAddItem(c: Completion, suffix: string): (d: Completion)
    ensures IsBlank(c.newItem.name) ==> d == c
    ensures !IsBlank(c.newItem.name) ==>
      && d.data.inventory == c.data.inventory + [CustomItem(c.newItem, suffix)]
      && d == c.(data := c.data.(inventory := d.data.inventory), newItem := EmptyItemForm,
                 showAddItem := false, hasUnsavedChanges := true)
  {
    if IsBlank(c.newItem.name) then c
    else
      c.(data := UpdateInventory(c.data, c.data.inventory + [CustomItem(c.newItem, suffix)]),
         newItem := EmptyItemForm, showAddItem := false, hasUnsavedChanges := true)
  }

  /** The add button is disabled exactly when adding would do nothing, and an accepted add leaves it disabled. */
  lemma AddItemDisabledIffNoOp(c: Completion, suffix: string)
    ensures AddItemDisabled(c) <==> HandleAddItem(c, suffix).data.inventory == c.data.inventory
    ensures !AddItemDisabled(c) ==> AddItemDisabled(HandleAddItem(c, suffix))
  {
    if !AddItemDisabled(c) {
      assert |HandleAddItem(c, suffix).data.inventory| == |c.data.inventory| + 1;
      BlankIffAllSpace("");
    }
  }

  /** A name of spaces only is refused. */
  lemma SpacesOnlyNameRefused(c: Completion, suffix: string)
    requires |c.newItem.name| > 0 && forall k :: 0 <= k < |c.newItem.name| ==> c.newItem.name[k] == ' '
    ensures HandleAddItem(c, suffix) == c
  {
    BlankIffAllSpace(c.newItem.name);
  }

  /** `handleSaveChanges`: only the unsaved flag is cleared. */
  function HandleSaveChanges(c: Completion): (d: Completion)
    ensures !d.hasUnsavedChanges && d == c.(hasUnsavedChanges := false)
  {
    c.(hasUnsavedChanges := false)
  }

  /** An inventory edit marks the screen unsaved; saving afterwards clears the flag and keeps the edit. */
  lemma SaveAfterEditKeepsEdit(c: Completion, itemId: string, patch: ItemPatch)
    ensures HandleUpdateItem(c, itemId, patch).hasUnsavedChanges
    ensures var saved := HandleSaveChanges(HandleUpdateItem(c, itemId, patch));
      !saved.hasUnsavedChanges && saved.data == HandleUpdateItem(c, itemId, patch).data
  {
  }
}
