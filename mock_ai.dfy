/**
 * The offline stand-in for the completion service: a fixed table of level
 * suggestions, description templates, and a random starting inventory.
 * `Math.random()` values are parameters in `[0, 1)`.
 */
module MockAI {
  import opened Wrappers
  import opened Text
  import opened Records

  // ---------------------------------------------------------------- level suggestions

  const DefaultSuggestions: seq<string> := ["locations", "landmarks", "settlements", "points of interest"]

  /** Suggestions keyed by the last level of the hierarchy. */
  const Suggestions: map<string, seq<string>> := map[
    "world" := ["kingdoms", "empires", "realms", "continents"],
    "kingdoms" := ["provinces", "cities", "strongholds", "duchies"],
    "empires" := ["regions", "states", "territories", "colonies"],
    "provinces" := ["towns", "villages", "outposts", "settlements"],
    "cities" := ["districts", "quarters", "neighborhoods", "wards"],
    "default" := DefaultSuggestions]

  /** `hierarchy[hierarchy.length - 1] || 'world'`: the last level, or `world` when there is none. */
  function SuggestionKey(hierarchy: seq<string>): (key: string)
    ensures hierarchy == [] ==> key == "world"
    ensures hierarchy != [] && hierarchy[|hierarchy| - 1] != "" ==> key == hierarchy[|hierarchy| - 1]
    ensures key != ""
  {
    if hierarchy == [] || hierarchy[|hierarchy| - 1] == "" then "world" else hierarchy[|hierarchy| - 1]
  }

  /** `suggestLevels(context)`: the table row of the key, or the default row; always four names. */
  function SuggestLevels(hierarchy: seq<string>): (r: seq<string>)
    ensures |r| == 4
    ensures SuggestionKey(hierarchy) in Suggestions ==> r == Suggestions[SuggestionKey(hierarchy)]
    ensures SuggestionKey(hierarchy) !in Suggestions ==> r == DefaultSuggestions
  {
    var key := SuggestionKey(hierarchy);
    if key in Suggestions then Suggestions[key] else Suggestions["default"]
  }

  /** Before any level exists the mock offers the four top-level kinds. */
  lemma FirstSuggestions()
    ensures SuggestLevels([]) == ["kingdoms", "empires", "realms", "continents"]
  {
  }

  // ---------------------------------------------------------------- descriptions

  /** `Math.floor(random * n)`: a position below `n`. */
  function Pick(random: real, n: nat): (k: nat)
    requires 0.0 <= random < 1.0 && n > 0
    ensures k < n
  {
    assert random * n as real < n as real;
    (random * n as real).Floor
  }

  /** Each template as the text before and after the entity name. */
  const KingdomTemplates: seq<(string, string)> := [
    ("A mighty kingdom known as ", ", renowned for its powerful armies and ancient traditions."),
    ("The prosperous realm of ", ", where trade and culture flourish in equal measure."),
    ("", ", a mysterious kingdom shrouded in legends and magical phenomena.")]

  const ProvinceTemplates: seq<(string, string)> := [
    ("", ", a rich province famous for its abundant resources and skilled craftsmen."),
    ("The strategic province of ", ", protecting vital trade routes and military positions."),
    ("A peaceful province called ", ", known for its agricultural wealth and scenic beauty.")]

  const CityTemplates: seq<(string, string)> := [
    ("", ", a bustling metropolis where ancient architecture meets modern innovation."),
    ("The fortified city of ", ", standing proud with its imposing walls and towers."),
    ("A cultural hub known as ", ", where artists and scholars gather from across the realm.")]

  /** `templates[level] || templates.default`: the level's own templates, or the default ones. */
  function TemplateParts(level: string): (parts: seq<(string, string)>)
    ensures |parts| == 3
    ensures level !in {"kingdoms", "provinces", "cities"} ==> parts == DefaultTemplateParts(level)
  {
    if level == "kingdoms" then KingdomTemplates
    else if level == "provinces" then ProvinceTemplates
    else if level == "cities" then CityTemplates
    else DefaultTemplateParts(level)
  }

  /** The templates for any other level; two of them name the level itself. */
  function DefaultTemplateParts(level: string): seq<(string, string)> {
    [("", ", a remarkable place with its own unique identity and customs."),
     ("The distinguished " + level + " of ", ", holding significant importance in the realm."),
     ("", ", a notable " + level + " with a rich history and vibrant present.")]
  }

  /**
   * `generateEntityDescription(level, entityName)`: one of the level's three
   * templates, chosen by `random`, filled with the name, so it mentions the name.
   */
  function GenerateEntityDescription(level: string, entityName: string, random: real): (r: string)
    requires 0.0 <= random < 1.0
    ensures Contains(r, entityName)
    ensures exists k :: 0 <= k < 3 && r == TemplateParts(level)[k].0 + entityName + TemplateParts(level)[k].1
    ensures level !in {"kingdoms", "provinces", "cities"} ==>
      exists k :: 0 <= k < 3 && r == DefaultTemplateParts(level)[k].0 + entityName + DefaultTemplateParts(level)[k].1
  {
    var parts := TemplateParts(level)[Pick(random, 3)];
    ContainsMiddle(parts.0, entityName, parts.1);
    parts.0 + entityName + parts.1
  }

  // ---------------------------------------------------------------- inventory

  /** The item categories and the names each may draw. */
  const Categories: seq<(string, seq<string>)> := [
    ("weapons", ["Rusty Sword", "Hunter's Bow", "Magic Staff", "Dagger"]),
    ("armor", ["Leather Armor", "Traveler's Cloak", "Sturdy Boots", "Protective Amulet"]),
    ("supplies", ["Healing Potion", "Trail Rations", "Torch", "Rope"]),
    ("tools", ["Lockpicks", "Map", "Compass", "Writing Kit"])]

  /** A shuffle of the category positions: every position exactly once. */
  predicate IsShuffle(order: seq<nat>) {
    && |order| == |Categories|
    && (forall k :: 0 <= k < |order| ==> order[k] < |Categories|)
    && (forall j, k :: 0 <= j < k < |order| ==> order[j] != order[k])
  }

  /**
   * The item drawn from category `c`: a name of that category, one to three of
   * it, an id `<category>-<suffix>`, and a description naming the category
   * without its last letter.
   */
  function MockItem(c: nat, pickRoll: real, quantityRoll: real, suffix: string): (item: Item)
    requires c < |Categories|
    requires 0.0 <= pickRoll < 1.0 && 0.0 <= quantityRoll < 1.0
    ensures item.category == Some(Categories[c].0)
    ensures item.name in Categories[c].1
    ensures 1 <= item.quantity <= 3
    ensures StartsWith(item.id, Categories[c].0 + "-")
    ensures item.description == Some("A useful " + DropLast(Categories[c].0) + " for your journey.")
  {
    var category := Categories[c].0;
    var names := Categories[c].1;
    var id := category + "-" + suffix;
    assert id[..|category + "-"|] == category + "-";
    Item(id, names[Pick(pickRoll, |names|)], Pick(quantityRoll, 3) + 1, Some(category),
         Some("A useful " + DropLast(category) + " for your journey."))
  }

  /** No two categories share a name. */
  lemma CategoryNamesDistinct(a: nat, b: nat)
    requires a < |Categories| && b < |Categories| && a != b
    ensures Categories[a].0 != Categories[b].0
  {
    var names := ["weapons", "armor", "supplies", "tools"];
    assert forall k :: 0 <= k < |Categories| ==> Categories[k].0 == names[k];
    assert names[a] != names[b] by {
      assert names[a][0] != names[b][0] || |names[a]| != |names[b]|;
    }
  }

  /** The two `Math.random()` values behind one item: its name and its quantity. */
  predicate RollsInRange(rolls: seq<(real, real)>) {
    forall k :: 0 <= k < |rolls| ==> 0.0 <= rolls[k].0 < 1.0 && 0.0 <= rolls[k].1 < 1.0
  }

  /** Items drawn from two different categories are told apart by their category. */
  lemma DistinctCategoriesDistinctItems(a: nat, b: nat, ra: (real, real), rb: (real, real), sa: string, sb: string)
    requires a < |Categories| && b < |Categories| && a != b
    requires 0.0 <= ra.0 < 1.0 && 0.0 <= ra.1 < 1.0 && 0.0 <= rb.0 < 1.0 && 0.0 <= rb.1 < 1.0
    ensures MockItem(a, ra.0, ra.1, sa).category != MockItem(b, rb.0, rb.1, sb).category
  {
    CategoryNamesDistinct(a, b);
  }

  /**
   * A list of items drawn in shuffled category order, as `GenerateInventory`
   * returns, never repeats a category.
   */
  lemma ShuffledItemsDistinct(order: seq<nat>, rolls: seq<(real, real)>, suffixes: seq<string>, inventory: seq<Item>)
    requires IsShuffle(order) && RollsInRange(rolls)
    requires |inventory| <= |rolls| && |inventory| <= |suffixes| && |inventory| <= |order|
    requires forall k :: 0 <= k < |inventory| ==> inventory[k] == MockItem(order[k], rolls[k].0, rolls[k].1, suffixes[k])
    ensures forall j, k :: 0 <= j < k < |inventory| ==> inventory[j].category != inventory[k].category
  {
    forall j, k | 0 <= j < k < |inventory|
      ensures inventory[j].category != inventory[k].category
    {
      DistinctCategoriesDistinctItems(order[j], order[k], rolls[j], rolls[k], suffixes[j], suffixes[k]);
    }
  }

  /**
   * `generateInventory()`: one item from each category, taken in shuffled
   * order, `min(5, 4) = 4` in all; `rolls[i]` picks the `i`-th item's name and
   * quantity. No category appears twice.
   */
  method GenerateInventory(order: seq<nat>, rolls: seq<(real, real)>, suffixes: seq<string>) returns (inventory: seq<Item>)
    requires IsShuffle(order) && RollsInRange(rolls)
    requires |rolls| >= |Categories| && |suffixes| >= |Categories|
    ensures |inventory| == 4
    ensures forall k :: 0 <= k < |inventory| ==> inventory[k] == MockItem(order[k], rolls[k].0, rolls[k].1, suffixes[k])
    ensures forall j, k :: 0 <= j < k < |inventory| ==> inventory[j].category != inventory[k].category
  {
    inventory := [];
    var n := if 5 < |Categories| then 5 else |Categories|;
    for i := 0 to n
      invariant |inventory| == i
      invariant forall k :: 0 <= k < i ==> inventory[k] == MockItem(order[k], rolls[k].0, rolls[k].1, suffixes[k])
    {
      var item := MockItem(order[i], rolls[i].0, rolls[i].1, suffixes[i]);
      ghost var drawn := inventory;
      inventory := inventory + [item];
      assert forall k :: 0 <= k < i ==> inventory[k] == drawn[k];
    }
    ShuffledItemsDistinct(order, rolls, suffixes, inventory);
  }
}
