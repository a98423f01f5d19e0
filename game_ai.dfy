/**
 * The logic around the completion-service calls: what is done with a reply,
 * and what is returned instead when a call fails. Each call's outcome is a
 * `Result` parameter: `Ok` with the reply, or `Err` with the thrown message.
 */
module GameAI {
  import opened Wrappers
  import opened Text
  import opened Records
  import opened Validation
  import WorldBuilder

  // ---------------------------------------------------------------- plain replies

  const FallbackLevels: seq<string> := ["regions", "territories", "settlements", "locations"]

  /** `suggestLevels`: the reply's suggestions, or the fixed four names after any failure. */
  function SuggestLevels(reply: Result<seq<string>>): (r: seq<string>)
    ensures reply.Ok? ==> r == reply.value
    ensures reply.Err? ==> r == FallbackLevels && |r| == 4
  {
    match reply
    case Ok(suggestions) => suggestions
    case Err(_) => FallbackLevels
  }

  /**
   * `generateEntityName` and `generateEntityDescription`: the reply with
   * surrounding white space removed; a failure is passed on.
   */
  function CompletionText(reply: Result<string>): (r: Result<string>)
    ensures reply.Err? ==> r == reply
    ensures reply.Ok? ==> r.Ok? && r.value == Trim(reply.value)
    ensures r.Ok? ==> r.value == [] || (!IsJsSpace(r.value[0]) && !IsJsSpace(r.value[|r.value| - 1]))
  {
    match reply
    case Ok(content) =>
      var t := TrimStart(content);
      assert TrimEnd(t) == [] || TrimEnd(t)[0] == t[0];
      Ok(Trim(content))
    case Err(m) => Err(m)
  }

  /** `enhanceDescription` and `generateGameStart`: the reply untouched, or the error's message in its place. */
  function TextOrErrorMessage(reply: Result<string>): (r: string)
    ensures reply.Ok? ==> r == reply.value
    ensures reply.Err? ==> r == reply.message
  {
    match reply
    case Ok(content) => content
    case Err(m) => m
  }

  // ---------------------------------------------------------------- pluralisation

  /**
   * The fallback of `pluralize`: a word ending in `s` is kept, a final `y`
   * becomes `ies`, any other word gains an `s`; the result always ends in `s`.
   */
  function PluralizeFallback(word: string): (r: string)
    ensures EndsWith(r, 's')
    ensures EndsWith(word, 's') ==> r == word
    ensures !EndsWith(word, 's') && EndsWith(word, 'y') ==> r == DropLast(word) + "ies"
    ensures !EndsWith(word, 's') && !EndsWith(word, 'y') ==> r == word + "s"
  {
    if EndsWith(word, 's') then word
    else if EndsWith(word, 'y') then DropLast(word) + "ies"
    else word + "s"
  }

  /** `pluralize`: the trimmed reply, or the fallback rules after a failure. */
  function Pluralize(reply: Result<string>, word: string): (r: string)
    ensures reply.Ok? ==> r == Trim(reply.value)
    ensures reply.Err? ==> EndsWith(r, 's') && r == PluralizeFallback(word)
  {
    match reply
    case Ok(content) => Trim(content)
    case Err(_) => PluralizeFallback(word)
  }

  /** The level label's singular form undoes the fallback plural of a word ending in neither `s` nor `y`. */
  lemma SingularUndoesPluralize(word: string)
    requires !EndsWith(word, 's') && !EndsWith(word, 'y')
    ensures WorldBuilder.Singular(PluralizeFallback(word)) == word
  {
    WorldBuilder.SingularStripsOneS(word);
  }

  /** For a word ending in `y` the singular form keeps the `ie`: "cities" is labelled "citie". */
  lemma SingularOfPluralizedY(word: string)
    requires EndsWith(word, 'y')
    ensures WorldBuilder.Singular(PluralizeFallback(word)) == DropLast(word) + "ie"
  {
    assert PluralizeFallback(word) == (DropLast(word) + "ie") + "s";
    WorldBuilder.SingularStripsOneS(DropLast(word) + "ie");
  }

  // ---------------------------------------------------------------- inventory

  /** An item as the reply lists it; `id` is normally absent. */
  datatype RawItem = RawItem(id: Option<string>, name: string, category: Option<string>, description: Option<string>, quantity: int)

  /** `${item.category}`: a missing category is written `undefined`. */
  function CategoryText(raw: RawItem): string {
    raw.category.GetOr("undefined")
  }

  /**
   * `{ id: `${item.category}-${suffix}`, ...item }`: the item with a
   * category-prefixed id, unless the reply gave an id of its own, which wins.
   */
  function TagItem(raw: RawItem, suffix: string): (item: Item)
    ensures raw.id.Some? ==> item.id == raw.id.value
    ensures raw.id.None? ==> item.id == CategoryText(raw) + "-" + suffix && StartsWith(item.id, CategoryText(raw) + "-")
    ensures item.name == raw.name && item.quantity == raw.quantity
    ensures item.category == raw.category && item.description == raw.description
  {
    var id := CategoryText(raw) + "-" + suffix;
    assert id[..|CategoryText(raw) + "-"|] == CategoryText(raw) + "-";
    Item(raw.id.GetOr(id), raw.name, raw.quantity, raw.category, raw.description)
  }

  const FallbackItem: Item := Item("supplies-fallback1", "Basic Supplies", 1, Some("supplies"), Some("Essential items for survival."))

  /**
   * `generateInventory`: each listed item tagged with an id, in order; any
   * failure (the call, the parse, a missing `items` list) gives the single
   * fallback item instead.
   */
  function GenerateInventory(reply: Result<seq<RawItem>>, suffix: nat -> string): (r: seq<Item>)
    ensures reply.Err? ==> r == [FallbackItem]
    ensures reply.Ok? ==> |r| == |reply.value|
    ensures reply.Ok? ==> forall k :: 0 <= k < |r| ==> r[k] == TagItem(reply.value[k], suffix(k))
  {
    match reply
    case Ok(items) => seq(|items|, k requires 0 <= k < |items| => TagItem(items[k], suffix(k)))
    case Err(_) => [FallbackItem]
  }

  /** What `generateInventory` is handed: a world context, or bare text in its place. */
  datatype InventoryArgument = WorldContext(description: string) | BareText(text: string)

  /** What reading `worldContext.world.description` throws when the argument is text. */
  const MissingWorldError: string := "Cannot read properties of undefined (reading 'description')"

  /**
   * `generateInventory(worldContext)` with its argument: the prompt reads
   * `worldContext.world.description` inside the `try`, so bare text throws
   * there and the fallback item is returned whatever the service would reply.
   */
  function GenerateInventoryFor(arg: InventoryArgument, reply: Result<seq<RawItem>>, suffix: nat -> string): (r: seq<Item>)
    ensures arg.BareText? ==> r == [FallbackItem]
    ensures arg.WorldContext? ==> r == GenerateInventory(reply, suffix)
  {
    match arg
    case BareText(_) => GenerateInventory(Err(MissingWorldError), suffix)
    case WorldContext(_) => GenerateInventory(reply, suffix)
  }

  // ---------------------------------------------------------------- NPC generation

  /** The fields every generated NPC must carry, in the order the error lists them. */
  const RequiredFields: seq<string> := ["name", "role", "description", "personality", "background", "desires", "fears", "goal"]

  /** `!npcData[field]`: the field is absent or empty. */
  predicate Falsy(npc: Npc, field: string) {
    field !in npc || npc[field] == ""
  }

  /** `requiredFields.filter(field => !npcData[field])` */
  function MissingFields(npc: Npc): (r: seq<string>)
    ensures forall f :: f in r <==> f in RequiredFields && Falsy(npc, f)
    ensures IsSubsequence(r, RequiredFields)
  {
    RemoveWhere(RequiredFields, (f: string) => !Falsy(npc, f))
  }

  /** `parts.join(sep)` */
  function Join(parts: seq<string>, sep: string): string
    decreases |parts|
  {
    if parts == [] then ""
    else if |parts| == 1 then parts[0]
    else parts[0] + sep + Join(parts[1..], sep)
  }

  /** Every part appears in the joined text. */
  lemma {:induction false} JoinContainsEach(parts: seq<string>, sep: string, k: nat)
    requires k < |parts|
    ensures Contains(Join(parts, sep), parts[k])
    decreases |parts|
  {
    if |parts| == 1 {
      ContainsMiddle("", parts[0], "");
      assert "" + parts[0] + "" == parts[0];
    } else if k == 0 {
      ContainsMiddle("", parts[0], sep + Join(parts[1..], sep));
      assert "" + parts[0] + (sep + Join(parts[1..], sep)) == Join(parts, sep);
    } else {
      JoinContainsEach(parts[1..], sep, k - 1);
      ContainsAfterPrefix(parts[0] + sep, Join(parts[1..], sep), parts[k]);
    }
  }

  const ParseFailure: string := "Failed to parse NPC data"
  const ParseFailureReport: string := "Failed to generate valid NPC data. Please try again."
  const NotUniqueError: string := "Generated name is not unique. Please try again."
  /** What reading `toLowerCase` of a missing name throws. */
  const NamelessNpcError: string := "Cannot read properties of undefined (reading 'toLowerCase')"

  function MissingFieldsError(fields: seq<string>): string {
    "Invalid NPC data: Missing fields: " + Join(fields, ", ")
  }

  /** The missing-fields error names each missing field. */
  lemma MissingFieldsErrorNamesEach(fields: seq<string>, k: nat)
    requires k < |fields|
    ensures Contains(MissingFieldsError(fields), fields[k])
  {
    JoinContainsEach(fields, ", ", k);
    ContainsAfterPrefix("Invalid NPC data: Missing fields: ", Join(fields, ", "), fields[k]);
  }

  /** The outer handler's rewrite: only the parse failure gets a friendlier message. */
  function RemapError(message: string): (r: string)
    ensures message == ParseFailure ==> r == ParseFailureReport
    ensures message != ParseFailure ==> r == message
  {
    if message == ParseFailure then ParseFailureReport else message
  }

  /**
   * `isNameUnique(npcData.name, existingNPCs.map(npc => npc.name))`, read
   * left to right as `some` does: `None` when a nameless NPC is reached before
   * any match (its missing name has no `toLowerCase`).
   */
  function NameUniqueAmong(name: string, existing: seq<Npc>): (r: Option<bool>)
    ensures r == Some(true) <==> forall k :: 0 <= k < |existing| ==>
      "name" in existing[k] && !SameIgnoringCase(existing[k]["name"], name)
    ensures r == Some(false) ==> exists k :: 0 <= k < |existing| && "name" in existing[k] && SameIgnoringCase(existing[k]["name"], name)
    ensures r.None? <==> exists k :: 0 <= k < |existing| && "name" !in existing[k] && PassedBefore(name, existing, k)
    decreases |existing|
  {
    if existing == [] then Some(true)
    else if "name" !in existing[0] then None
    else if SameIgnoringCase(existing[0]["name"], name) then
      assert forall k :: 0 < k < |existing| ==> !PassedBefore(name, existing, k);
      Some(false)
    else
      var rest := NameUniqueAmong(name, existing[1..]);
      assert forall k :: 1 <= k < |existing| ==> existing[k] == existing[1..][k - 1];
      assert forall k :: 1 <= k < |existing| ==> (PassedBefore(name, existing, k) <==> PassedBefore(name, existing[1..], k - 1));
      rest
  }

  /** Every NPC before position `k` has a name that differs from `name` up to case, so `some` reaches position `k`. */
  predicate PassedBefore(name: string, existing: seq<Npc>, k: nat)
    requires k <= |existing|
  {
    forall j :: 0 <= j < k ==> "name" in existing[j] && !SameIgnoringCase(existing[j]["name"], name)
  }

  /** `some` stops at the first match: a nameless NPC after it is never reached, and the answer is "not unique". */
  lemma MatchBeforeNamelessIsNotUnique(name: string, existing: seq<Npc>, k: nat)
    requires k < |existing| && PassedBefore(name, existing, k)
    requires "name" in existing[k] && SameIgnoringCase(existing[k]["name"], name)
    ensures NameUniqueAmong(name, existing) == Some(false)
  {
    assert NameUniqueAmong(name, existing) != Some(true) by {
      assert "name" in existing[k] && SameIgnoringCase(existing[k]["name"], name);
    }
    var r := NameUniqueAmong(name, existing);
    assert r.Some?;
    assert !r.value;
  }

  /** `existingNPCs.map(npc => npc.name)`, a missing name read as empty. */
  function NpcNames(existing: seq<Npc>): (names: seq<string>)
    ensures |names| == |existing|
    ensures forall k :: 0 <= k < |existing| ==> names[k] == NpcName(existing[k])
  {
    seq(|existing|, k requires 0 <= k < |existing| => NpcName(existing[k]))
  }

  /** When every existing NPC has a name, the check is the level-name check on the list of names. */
  lemma NameUniqueAmongNamed(name: string, existing: seq<Npc>)
    requires forall k :: 0 <= k < |existing| ==> "name" in existing[k]
    ensures NameUniqueAmong(name, existing) == Some(IsNameUnique(name, NpcNames(existing)))
  {
    var names := NpcNames(existing);
    NameCheckFindsMatch(name, existing);
    if NameUniqueAmong(name, existing) == Some(false) {
      var k :| 0 <= k < |existing| && "name" in existing[k] && SameIgnoringCase(existing[k]["name"], name);
      assert SameIgnoringCase(names[k], name);
    } else {
      assert forall k :: 0 <= k < |names| ==> !SameIgnoringCase(names[k], name);
    }
  }

  /** With every NPC named, a failed uniqueness check is a definite `false`. */
  lemma {:induction false} NameCheckFindsMatch(name: string, existing: seq<Npc>)
    requires forall k :: 0 <= k < |existing| ==> "name" in existing[k]
    ensures NameUniqueAmong(name, existing).Some?
    decreases |existing|
  {
    if existing != [] && !SameIgnoringCase(existing[0]["name"], name) {
      NameCheckFindsMatch(name, existing[1..]);
    }
  }

  /** What the completion call returned: text that is not JSON, or a parsed object. */
  datatype NpcReply = Unparseable | Parsed(data: Npc)

  /** None of the checks' own messages is the parse failure's, so the rewrite leaves them alone. */
  lemma ErrorsAreNotParseFailure(fields: seq<string>)
    ensures MissingFieldsError(fields) != ParseFailure
    ensures NamelessNpcError != ParseFailure && NotUniqueError != ParseFailure
  {
    assert MissingFieldsError(fields)[0] == 'I';
    assert |ParseFailure| == 24 && |NotUniqueError| == 47 && |NamelessNpcError| == 59;
  }

  /**
   * The checks of `generateNPCs` on a parsed object: missing required fields
   * first, then the name; an object passing both gets the `npc-` id spread
   * under its own fields.
   */
  function CheckNpc(data: Npc, existing: seq<Npc>, suffix: string): (r: Result<Npc>)
    ensures MissingFields(data) != [] ==> r == Err(MissingFieldsError(MissingFields(data)))
    ensures r.Ok? <==> MissingFields(data) == [] && NameUniqueAmong(NpcName(data), existing) == Some(true)
    ensures r.Ok? ==> r.value == map["id" := "npc-" + suffix] + data
    ensures MissingFields(data) == [] && NameUniqueAmong(NpcName(data), existing) == Some(false) ==> r == Err(NotUniqueError)
    ensures r.Err? ==> r.message != ParseFailure
  {
    ErrorsAreNotParseFailure(MissingFields(data));
    if MissingFields(data) != [] then Err(MissingFieldsError(MissingFields(data)))
    else
      assert "name" !in MissingFields(data);
      match NameUniqueAmong(data["name"], existing)
      case None => Err(NamelessNpcError)
      case Some(false) => Err(NotUniqueError)
      case Some(true) => Ok(map["id" := "npc-" + suffix] + data)
  }

  /**
   * `generateNPCs`: a parsed object passing the checks is returned with its
   * id; every failure is thrown, with only the parse failure reworded.
   */
  function GenerateNpc(reply: Result<NpcReply>, existing: seq<Npc>, suffix: string): (r: Result<Npc>)
    ensures reply.Err? ==> r == Err(RemapError(reply.message))
    ensures reply == Ok(Unparseable) ==> r == Err(ParseFailureReport)
    ensures reply.Ok? && reply.value.Parsed? ==> r == CheckNpc(reply.value.data, existing, suffix)
    ensures r.Ok? <==> reply.Ok? && reply.value.Parsed? && CheckNpc(reply.value.data, existing, suffix).Ok?
  {
    match reply
    case Err(m) => Err(RemapError(m))
    case Ok(Unparseable) => Err(RemapError(ParseFailure))
    case Ok(Parsed(data)) =>
      var checked := CheckNpc(data, existing, suffix);
      if checked.Ok? then checked else Err(RemapError(checked.message))
  }

  /** An accepted NPC carries every required field, non-empty. */
  lemma AcceptedNpcComplete(reply: Result<NpcReply>, existing: seq<Npc>, suffix: string)
    requires GenerateNpc(reply, existing, suffix).Ok?
    ensures forall f :: f in RequiredFields ==>
      f in GenerateNpc(reply, existing, suffix).value && GenerateNpc(reply, existing, suffix).value[f] != ""
  {
    var data := reply.value.data;
    forall f | f in RequiredFields
      ensures f in GenerateNpc(reply, existing, suffix).value && GenerateNpc(reply, existing, suffix).value[f] != ""
    {
      assert f !in MissingFields(data);
    }
  }

  /** An accepted NPC's name differs, case aside, from every existing NPC's name. */
  lemma AcceptedNameIsNew(reply: Result<NpcReply>, existing: seq<Npc>, suffix: string)
    requires GenerateNpc(reply, existing, suffix).Ok?
    ensures forall k :: 0 <= k < |existing| ==>
      !SameIgnoringCase(NpcName(existing[k]), NpcName(GenerateNpc(reply, existing, suffix).value))
  {
    assert "name" !in MissingFields(reply.value.data);
  }

  /** The generated `npc-` id is used unless the parsed object has an `id`, which overrides it. */
  lemma ParsedIdOverrides(reply: Result<NpcReply>, existing: seq<Npc>, suffix: string)
    requires GenerateNpc(reply, existing, suffix).Ok?
    ensures "id" in reply.value.data ==> NpcHasId(GenerateNpc(reply, existing, suffix).value, reply.value.data["id"])
    ensures "id" !in reply.value.data ==> NpcHasId(GenerateNpc(reply, existing, suffix).value, "npc-" + suffix)
  {
  }

  // ---------------------------------------------------------------- game turns

  /** A message of the game log; `kind` is its `type`. */
  datatype Message = Message(kind: string, content: string)

  datatype Role = User | Assistant

  datatype ChatTurn = ChatTurn(role: Role, content: string)

  /** `xs.slice(-n)` for `n > 0`: the last `n` elements, or all of a shorter list. */
  function LastN<T>(xs: seq<T>, n: nat): (r: seq<T>)
    requires n > 0
    ensures |r| == if |xs| < n then |xs| else n
    ensures r == xs[|xs| - |r|..]
  {
    if |xs| <= n then xs else xs[|xs| - n..]
  }

  /** A `user` message is a user turn; every other kind speaks for the assistant. */
  function ToTurn(m: Message): (t: ChatTurn)
    ensures t.role == User <==> m.kind == "user"
    ensures t.content == m.content
  {
    ChatTurn(if m.kind == "user" then User else Assistant, m.content)
  }

  /** What one game action sends: the recent turns, the action, and the longer recent history. */
  datatype ActionRequest = ActionRequest(turns: seq<ChatTurn>, playerAction: string, previousMessages: seq<Message>)

  function BuildActionRequest(history: seq<Message>, userMessage: string): (q: ActionRequest)
    ensures |q.turns| <= 5 && |q.previousMessages| <= 10
    ensures q.previousMessages == LastN(history, 10) && q.playerAction == userMessage
    ensures |q.turns| == |LastN(history, 5)|
    ensures forall k :: 0 <= k < |q.turns| ==> q.turns[k] == ToTurn(history[|history| - |q.turns| + k])
  {
    var recent := LastN(history, 5);
    ActionRequest(seq(|recent|, k requires 0 <= k < |recent| => ToTurn(recent[k])), userMessage, LastN(history, 10))
  }

  /** The turns replay the tail of the previous messages, in order. */
  lemma TurnsAreTailOfPreviousMessages(history: seq<Message>, userMessage: string)
    ensures var q := BuildActionRequest(history, userMessage);
      |q.turns| <= |q.previousMessages| &&
      forall k :: 0 <= k < |q.turns| ==>
        q.turns[k] == ToTurn(q.previousMessages[|q.previousMessages| - |q.turns| + k])
  {
    var q := BuildActionRequest(history, userMessage);
    var p, m := q.previousMessages, |q.turns|;
    assert p == history[|history| - |p|..];
    forall k | 0 <= k < m
      ensures q.turns[k] == ToTurn(p[|p| - m + k])
    {
      assert p[|p| - m + k] == history[|history| - m + k];
    }
  }

  /** An inventory change the assistant reports. */
  datatype ItemChange = ItemChange(item: string, quantity: int)

  /** The assistant's parsed object; `None` marks an absent or `null` field. */
  datatype AssistantResult = AssistantResult(valid: Option<bool>, changes: Option<seq<ItemChange>>, message: Option<string>)

  const AssistantFallback: AssistantResult := AssistantResult(Some(true), Some([]), None)

  /** `inventoryAssistant`: the parsed reply, or "valid, no changes, no message" after any failure. */
  function InventoryAssistant(reply: Result<AssistantResult>): (r: AssistantResult)
    ensures reply.Ok? ==> r == reply.value
    ensures reply.Err? ==> r.valid == Some(true) && r.changes == Some([]) && r.message.None?
  {
    match reply
    case Ok(result) => result
    case Err(_) => AssistantFallback
  }

  /** The result of a game action: the narration and the inventory changes. */
  datatype ActionResult = ActionResult(content: string, inventoryChanges: seq<ItemChange>)

  /**
   * `handleGameAction`: the narration with the assistant's changes (none when
   * it reports none), or the error's message with no changes when the
   * narration call fails.
   */
  function HandleGameAction(narration: Result<string>, assistant: Result<AssistantResult>): (r: ActionResult)
    ensures narration.Err? ==> r == ActionResult(narration.message, [])
    ensures narration.Ok? ==> r.content == narration.value
    ensures narration.Ok? && InventoryAssistant(assistant).changes.None? ==> r.inventoryChanges == []
    ensures narration.Ok? && InventoryAssistant(assistant).changes.Some? ==>
      r.inventoryChanges == InventoryAssistant(assistant).changes.value
  {
    match narration
    case Err(m) => ActionResult(m, [])
    case Ok(text) => ActionResult(text, InventoryAssistant(assistant).changes.GetOr([]))
  }

  /** A failing assistant never changes the inventory. */
  lemma FailedAssistantChangesNothing(narration: Result<string>, message: string)
    ensures HandleGameAction(narration, Err(message)).inventoryChanges == []
  {
  }
}
