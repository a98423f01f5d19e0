/**
 * The world-data store of the `useWorldBuilder` hook: its initial state,
 * entity generation with the bounded name retry, automatic linking to a
 * lone parent, and the entity and inventory edits.
 */
module WorldBuilder {
  import opened Wrappers
  import opened Text
  import opened Records
  import Validation

  datatype World = World(description: string, generated: bool)

  /** The `worldData` object. */
  datatype WorldData = WorldData(
    world: World,
    hierarchy: seq<string>,                  // level names, outermost first
    entities: map<string, seq<Entity>>,      // level name -> its entities
    associations: map<string, string>,       // child entity id -> parent entity id
    inventory: seq<Item>,
    npcs: map<string, seq<Npc>>)

  /** Everything the hook keeps with `useState`. */
  datatype BuilderState = BuilderState(
    currentPhase: string,
    data: WorldData,
    currentLevel: string,
    isGenerating: bool,
    entityCount: int,
    isComplete: bool,
    showGeneratedEntities: bool)

  /** The state the hook starts from: an empty world on the world-creation step. */
  function InitialState(): (s: BuilderState)
    ensures s.data.world == World("", false)
    ensures s.data.hierarchy == [] && s.data.entities == map[] && s.data.associations == map[]
    ensures s.data.inventory == [] && s.data.npcs == map[]
    ensures s.currentLevel == "world" && s.entityCount == 0
    ensures !s.isGenerating && !s.isComplete && !s.showGeneratedEntities
    ensures Validation.NoCaseDuplicates(s.data.hierarchy)
  {
    BuilderState(
      "generation",
      WorldData(World("", false), [], map[], map[], [], map[]),
      "world", false, 0, false, false)
  }

  // ---------------------------------------------------------------- entity generation

  /** `level.endsWith('s') ? level.slice(0, -1) : level`: at most one trailing `s` goes. */
  function Singular(level: string): (r: string)
    ensures EndsWith(level, 's') ==> r + "s" == level
    ensures !EndsWith(level, 's') ==> r == level
  {
    if EndsWith(level, 's') then DropLast(level) else level
  }

  /** Only one `s` is stripped, whatever the word. */
  lemma SingularStripsOneS(word: string)
    ensures Singular(word + "s") == word
  {
    assert DropLast(word + "s") == word;
  }

  /** `${level}-${i}` */
  function EntityId(level: string, i: nat): string {
    level + "-" + Decimal(i)
  }

  /** Ids of different positions at one level differ. */
  lemma EntityIdInjective(level: string, i: nat, j: nat)
    requires EntityId(level, i) == EntityId(level, j)
    ensures i == j
  {
    var prefix := level + "-";
    assert EntityId(level, i)[|prefix|..] == Decimal(i);
    assert EntityId(level, j)[|prefix|..] == Decimal(j);
    DecimalInjective(i, j);
  }

  /**
   * What generation learns from outside: the completion service, the
   * uniqueness check the hook means to import, and the `Math.random` suffixes.
   */
  datatype EntityOracle = EntityOracle(
    name: (nat, nat) -> Result<string>,         // generateEntityName for entity i, attempt a
    describe: (nat, string) -> Result<string>,  // generateEntityDescription for entity i and its name
    unique: string -> bool,                     // the uniqueness check on a candidate name
    retrySuffix: nat -> string,                 // suffix of the name used when the retries run out
    errorSuffix: nat -> string)                 // suffix of the name used when a call throws

  const MaxAttempts: nat := 3

  /**
   * The name the `do … while` retry settles on for entity `i`, from attempt
   * `attempt` on: a thrown error ends it; the answer of the last attempt is
   * always replaced by `fallback`, because the attempt count is compared
   * before the uniqueness test; an earlier answer is kept once it is unique.
   */
  function ChosenName(o: EntityOracle, i: nat, fallback: string, attempt: nat): Result<string>
    requires attempt < MaxAttempts
    decreases MaxAttempts - attempt
  {
    match o.name(i, attempt)
    case Err(m) => Err(m)
    case Ok(candidate) =>
      if attempt + 1 == MaxAttempts then Ok(fallback)
      else if o.unique(candidate) then Ok(candidate)
      else ChosenName(o, i, fallback, attempt + 1)
  }

  /** How many times the retry calls the name service from attempt `attempt` on. */
  function NameCalls(o: EntityOracle, i: nat, attempt: nat): (n: nat)
    requires attempt < MaxAttempts
    ensures 1 <= n <= MaxAttempts - attempt
    decreases MaxAttempts - attempt
  {
    match o.name(i, attempt)
    case Err(_) => 1
    case Ok(candidate) =>
      if attempt + 1 == MaxAttempts || o.unique(candidate) then 1
      else 1 + NameCalls(o, i, attempt + 1)
  }

  /** A first answer that passes the check is kept after one call. */
  lemma FirstUniqueNameKept(o: EntityOracle, i: nat, fallback: string, n: string)
    requires o.name(i, 0) == Ok(n) && o.unique(n)
    ensures ChosenName(o, i, fallback, 0) == Ok(n) && NameCalls(o, i, 0) == 1
  {
  }

  /** A second answer that passes the check is kept after two calls. */
  lemma SecondUniqueNameKept(o: EntityOracle, i: nat, fallback: string, first: string, n: string)
    requires o.name(i, 0) == Ok(first) && !o.unique(first)
    requires o.name(i, 1) == Ok(n) && o.unique(n)
    ensures ChosenName(o, i, fallback, 0) == Ok(n) && NameCalls(o, i, 0) == 2
  {
  }

  /** The third answer is never used, even when it would pass the check. */
  lemma ThirdNameReplacedByFallback(o: EntityOracle, i: nat, fallback: string, first: string, second: string, third: string)
    requires o.name(i, 0) == Ok(first) && !o.unique(first)
    requires o.name(i, 1) == Ok(second) && !o.unique(second)
    requires o.name(i, 2) == Ok(third)
    ensures ChosenName(o, i, fallback, 0) == Ok(fallback) && NameCalls(o, i, 0) == 3
  {
    assert ChosenName(o, i, fallback, 1) == ChosenName(o, i, fallback, 2);
  }

  /**
   * A chosen name is either the fallback or an answer of one of the first two
   * attempts that passed the check; a failure is the error of a call the
   * retry made.
   */
  lemma {:induction false} ChosenNameSound(o: EntityOracle, i: nat, fallback: string, attempt: nat)
    requires attempt < MaxAttempts
    ensures ChosenName(o, i, fallback, attempt).Ok? ==>
      var n := ChosenName(o, i, fallback, attempt).value;
      n == fallback || (o.unique(n) && exists a :: attempt <= a < MaxAttempts - 1 && o.name(i, a) == Ok(n))
    ensures ChosenName(o, i, fallback, attempt).Err? ==>
      exists a :: attempt <= a < attempt + NameCalls(o, i, attempt) && o.name(i, a) == ChosenName(o, i, fallback, attempt)
    decreases MaxAttempts - attempt
  {
    match o.name(i, attempt)
    case Err(m) =>
    case Ok(candidate) =>
      if attempt + 1 < MaxAttempts && !o.unique(candidate) {
        ChosenNameSound(o, i, fallback, attempt + 1);
      }
  }

  /**
   * The `do … while` retry for entity `i`: the name it keeps, or the error a
   * call threw, and how many calls it made.
   */
  method PickName(o: EntityOracle, i: nat, fallback: string) returns (name: Result<string>, calls: nat)
    ensures name == ChosenName(o, i, fallback, 0)
    ensures calls == NameCalls(o, i, 0) && 1 <= calls <= MaxAttempts
  {
    var attempts: nat := 0;
    while true
      invariant attempts < MaxAttempts
      invariant ChosenName(o, i, fallback, attempts) == ChosenName(o, i, fallback, 0)
      invariant NameCalls(o, i, 0) == attempts + NameCalls(o, i, attempts)
      decreases MaxAttempts - attempts
    {
      var reply := o.name(i, attempts);
      attempts := attempts + 1;
      match reply {
        case Err(m) =>
          return Err(m), attempts;
        case Ok(candidate) =>
          if attempts == MaxAttempts {
            return Ok(fallback), attempts;
          }
          if o.unique(candidate) {
            return Ok(candidate), attempts;
          }
      }
    }
  }

  /** The name an entity gets when a service call throws: `${singular} ${suffix}`. */
  function ErrorFallbackName(level: string, i: nat, o: EntityOracle): string {
    Singular(level) + " " + o.errorSuffix(i)
  }

  /** The name used when the retries run out. */
  function RetryFallbackName(level: string, i: nat, o: EntityOracle): string {
    Singular(level) + " " + o.retrySuffix(i)
  }

  /**
   * The `i`-th entity generation pushes: named and described on success;
   * otherwise with the error fallback name, no description, and flagged.
   */
  function EntityAt(level: string, i: nat, o: EntityOracle): (e: Entity)
    ensures e.id == EntityId(level, i)
    ensures e.needsDescription <==>
      ChosenName(o, i, RetryFallbackName(level, i, o), 0).Err? ||
      o.describe(i, ChosenName(o, i, RetryFallbackName(level, i, o), 0).value).Err?
    ensures e.needsDescription ==> e.name == ErrorFallbackName(level, i, o) && e.description == ""
    ensures !e.needsDescription ==>
      ChosenName(o, i, RetryFallbackName(level, i, o), 0) == Ok(e.name) && o.describe(i, e.name) == Ok(e.description)
  {
    var failed := Entity(EntityId(level, i), ErrorFallbackName(level, i, o), "", true);
    match ChosenName(o, i, RetryFallbackName(level, i, o), 0)
    case Err(_) => failed
    case Ok(name) =>
      match o.describe(i, name)
      case Err(_) => failed
      case Ok(description) => Entity(EntityId(level, i), name, description, false)
  }

  /**
   * `generateEntities(level, count)`: one entity per `i` in `0 .. count-1`, in
   * order, so exactly `count` of them (none for a count below one), with
   * pairwise distinct ids `level-i`.
   */
  method GenerateEntities(level: string, count: int, o: EntityOracle) returns (entities: seq<Entity>)
    ensures |entities| == if count > 0 then count else 0
    ensures forall k :: 0 <= k < |entities| ==> entities[k] == EntityAt(level, k, o)
    ensures forall k :: 0 <= k < |entities| ==> entities[k].id == EntityId(level, k)
    ensures forall j, k :: 0 <= j < k < |entities| ==> entities[j].id != entities[k].id
  {
    entities := [];
    var i := 0;
    while i < count
      invariant 0 <= i <= (if count > 0 then count else 0)
      invariant |entities| == i
      invariant forall k :: 0 <= k < i ==> entities[k] == EntityAt(level, k, o)
    {
      var name, _ := PickName(o, i, RetryFallbackName(level, i, o));
      var entity := Entity(EntityId(level, i), ErrorFallbackName(level, i, o), "", true);
      if name.Ok? {
        var description := o.describe(i, name.value);
        if description.Ok? {
          entity := Entity(EntityId(level, i), name.value, description.value, false);
        }
      }
      entities := entities + [entity];
      i := i + 1;
    }
    forall j, k | 0 <= j < k < |entities|
      ensures entities[j].id != entities[k].id
    {
      if entities[j].id == entities[k].id {
        EntityIdInjective(level, j, k);
      }
    }
  }

  // ---------------------------------------------------------------- parents

  /** `entities[level] || []` */
  function EntitiesOf(entities: map<string, seq<Entity>>, level: string): seq<Entity> {
    if level in entities then entities[level] else []
  }

  /** `hierarchy.indexOf(level)`: the first position of `level`, or -1. */
  function IndexOf(hierarchy: seq<string>, level: string): (r: int)
    ensures -1 <= r < |hierarchy|
    ensures r == -1 <==> level !in hierarchy
    ensures r >= 0 ==> hierarchy[r] == level && level !in hierarchy[..r]
    decreases |hierarchy|
  {
    if hierarchy == [] then -1
    else if hierarchy[0] == level then 0
    else
      var r := IndexOf(hierarchy[1..], level);
      assert hierarchy == [hierarchy[0]] + hierarchy[1..];
      if r == -1 then -1 else r + 1
  }

  /** The level just above `level`: none for the first level or a level outside the hierarchy. */
  function ParentLevel(hierarchy: seq<string>, level: string): (r: Option<string>)
    ensures r.Some? <==> level in hierarchy && hierarchy[0] != level
    ensures r.Some? ==> exists k :: 0 < k < |hierarchy| && hierarchy[k] == level && r.value == hierarchy[k - 1]
    ensures r.Some? ==> r.value != level
  {
    var i := IndexOf(hierarchy, level);
    if i > 0 then
      assert hierarchy[..i][i - 1] == hierarchy[i - 1];
      Some(hierarchy[i - 1])
    else None
  }

  /**
   * The lone-parent lookup as `autoConnectSingleParent` writes it:
   * `entities[hierarchy[hierarchy.indexOf(level) - 1]] || []`. A position
   * before the start reads `undefined`, which as a property key is the text
   * "undefined".
   */
  function ParentEntitiesAsWritten(data: WorldData, childLevel: string): seq<Entity> {
    var i := IndexOf(data.hierarchy, childLevel) - 1;
    EntitiesOf(data.entities, if 0 <= i then data.hierarchy[i] else "undefined")
  }

  /**
   * With a level named "undefined" below the first one, the first level is
   * given that level's lone entity as its parent, although it has no parent
   * level.
   */
  lemma AsWrittenFirstLevelGetsParent(data: WorldData, e: Entity)
    requires data.hierarchy == ["kingdoms", "undefined"]
    requires data.entities == map["undefined" := [e]]
    ensures ParentLevel(data.hierarchy, "kingdoms") == None
    ensures ParentEntitiesAsWritten(data, "kingdoms") == [e]
  {
    assert IndexOf(data.hierarchy, "kingdoms") == 0;
  }

  /** The parent entities of a level: those of the level just above, none without one. */
  function ParentEntities(data: WorldData, childLevel: string): (r: seq<Entity>)
    ensures ParentLevel(data.hierarchy, childLevel).None? ==> r == []
    ensures ParentLevel(data.hierarchy, childLevel).Some? ==>
      r == EntitiesOf(data.entities, ParentLevel(data.hierarchy, childLevel).value)
  {
    match ParentLevel(data.hierarchy, childLevel)
    case None => []
    case Some(parent) => EntitiesOf(data.entities, parent)
  }

  /** The corrected lookup agrees with the code wherever the code has a parent level to read. */
  lemma ParentEntitiesAgreeBelowFirst(data: WorldData, childLevel: string)
    requires ParentLevel(data.hierarchy, childLevel).Some?
    ensures ParentEntities(data, childLevel) == ParentEntitiesAsWritten(data, childLevel)
  {
  }

  /** The ids of a list of entities. */
  function IdSet(xs: seq<Entity>): set<string> {
    set k | 0 <= k < |xs| :: xs[k].id
  }

  /** `{ [child.id]: parentId }` for every child. */
  function LinksTo(children: seq<Entity>, parentId: string): (m: map<string, string>)
    ensures m.Keys == IdSet(children)
    ensures forall id :: id in m ==> m[id] == parentId
  {
    map id | id in IdSet(children) :: parentId
  }

  /**
   * `autoConnectSingleParent(childLevel)`: when the level above holds exactly
   * one entity, every child of `childLevel` is linked to it and the other links
   * stay; otherwise nothing changes. Reports whether it linked.
   */
  method AutoConnectSingleParent(data: WorldData, childLevel: string) returns (connected: bool, next: WorldData)
    ensures connected <==> |ParentEntities(data, childLevel)| == 1
    ensures !connected ==> next == data
    ensures connected ==>
      next == data.(associations := data.associations + LinksTo(EntitiesOf(data.entities, childLevel), ParentEntities(data, childLevel)[0].id))
    ensures connected ==> forall c :: c in EntitiesOf(data.entities, childLevel) ==>
      c.id in next.associations && next.associations[c.id] == ParentEntities(data, childLevel)[0].id
    ensures forall id :: id in data.associations && id !in IdSet(EntitiesOf(data.entities, childLevel)) ==>
      id in next.associations && next.associations[id] == data.associations[id]
  {
    var parents := ParentEntities(data, childLevel);
    var children := EntitiesOf(data.entities, childLevel);
    if |parents| == 1 {
      var parentId := parents[0].id;
      var links: map<string, string> := map[];
      var k := 0;
      while k < |children|
        invariant 0 <= k <= |children|
        invariant links == LinksTo(children[..k], parentId)
      {
        assert IdSet(children[..k + 1]) == IdSet(children[..k]) + {children[k].id} by {
          assert forall m :: 0 <= m < k ==> children[..k + 1][m] == children[..k][m];
        }
        links := links[children[k].id := parentId];
        k := k + 1;
      }
      assert children[..k] == children;
      connected, next := true, data.(associations := data.associations + links);
      forall c | c in children
        ensures c.id in IdSet(children)
      {
        var m :| 0 <= m < |children| && children[m] == c;
      }
    } else {
      connected, next := false, data;
    }
  }

  /** The first level of the hierarchy, or a level outside it, never links anything. */
  lemma FirstLevelNeverConnects(data: WorldData, childLevel: string)
    requires data.hierarchy == [] || data.hierarchy[0] == childLevel || childLevel !in data.hierarchy
    ensures |ParentEntities(data, childLevel)| == 0
  {
  }

  // ---------------------------------------------------------------- edits

  /**
   * `updateEntity(level, entityId, updates)`: the matching entity of that
   * level is merged with the updates; the list keeps its length and order and
   * nothing else changes. The level must hold a list: the code maps over it.
   */
  function UpdateEntity(data: WorldData, level: string, entityId: string, patch: EntityPatch): (r: WorldData)
    requires level in data.entities
    ensures r == data.(entities := r.entities)
    ensures r.entities.Keys == data.entities.Keys
    ensures forall l :: l in data.entities && l != level ==> r.entities[l] == data.entities[l]
    ensures |r.entities[level]| == |data.entities[level]|
    ensures forall k :: 0 <= k < |data.entities[level]| ==>
      r.entities[level][k] == if data.entities[level][k].id == entityId
                              then MergeEntity(data.entities[level][k], patch)
                              else data.entities[level][k]
  {
    data.(entities := data.entities[level := MapWhere(data.entities[level], (e: Entity) => e.id == entityId, (e: Entity) => MergeEntity(e, patch))])
  }

  /** A merge keeps the entity's id, so the edited entity can be found again by it. */
  lemma UpdateEntityKeepsIds(data: WorldData, level: string, entityId: string, patch: EntityPatch)
    requires level in data.entities
    ensures IdSet(UpdateEntity(data, level, entityId, patch).entities[level]) == IdSet(data.entities[level])
  {
    var r := UpdateEntity(data, level, entityId, patch).entities[level];
    assert forall k :: 0 <= k < |r| ==> r[k].id == data.entities[level][k].id;
  }

  /** `updateInventory(inventory)`: the inventory is replaced and nothing else changes. */
  function UpdateInventory(data: WorldData, inventory: seq<Item>): (r: WorldData)
    ensures r.inventory == inventory
    ensures r.(inventory := data.inventory) == data
  {
    data.(inventory := inventory)
  }
}
