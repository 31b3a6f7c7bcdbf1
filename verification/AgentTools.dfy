/** Which commands an agent can produce (src/stroy/agent/tools.py), and what no run
    of them can take from the owner. */
module AgentTools {
  import opened Wrappers
  import opened SceneModel
  import opened SceneLaws
  import opened SceneWrites

  datatype ToolName =
    | GetScene | GetRoom | GetEntity | ListMaterials
    | ToolSetMaterial | ToolSetColor | ToolAddObject | ToolRemoveObject | ToolReplaceObject | ToolMoveObject
    | ToolSetLightIntent | ToolSetState
    | GetDesignCheck | CreateDesignRevision | RenderPreview | ListProductCandidates | GetProductCandidate
    | ListVariants | GetVariant | CompareVariants | GetVariantBudget

  /** A raw tool call: the name when it is a known one, and the arguments when they are an object. */
  datatype ToolCall = ToolCall(name: Option<ToolName>, arguments: Option<map<Key, Value>>)

  datatype ToolError = UnknownTool | InvalidArguments | InvalidMode

  const MUTATION_TOOLS: set<ToolName> :=
    {ToolSetMaterial, ToolSetColor, ToolSetState, ToolAddObject, ToolRemoveObject, ToolReplaceObject, ToolMoveObject,
     ToolSetLightIntent}

  /** CommandOperation(name) for the names in MUTATION_TOOLS. */
  function OperationOf(name: ToolName): Operation
    requires name in MUTATION_TOOLS
  {
    match name
    case ToolSetMaterial => SetMaterial
    case ToolSetColor => SetColor
    case ToolSetState => SetState
    case ToolAddObject => AddObject
    case ToolRemoveObject => RemoveObject
    case ToolReplaceObject => ReplaceObjectFromReference
    case ToolMoveObject => MoveObject
    case ToolSetLightIntent => SetLightIntent
  }

  /** The argument fields of a mutation tool; anything else is forbidden. */
  function ArgumentKeys(name: ToolName): set<Key>
    requires name in MUTATION_TOOLS
  {
    {TargetKey} +
    match name
    case ToolSetMaterial => {MaterialRefKey}
    case ToolSetColor => {ColorKey}
    case ToolSetState => {StateKey}
    case ToolAddObject => {EntityKey}
    case ToolRemoveObject => {}
    case ToolReplaceObject => {ReferenceKey}
    case ToolMoveObject => {TranslationKey, RotationKey, ScaleKey}
    case ToolSetLightIntent => {IntentKey, TemperatureKey}
  }

  predicate HasText(a: map<Key, Value>, key: Key) {
    key in a && IsNonEmptyText(a[key])
  }

  predicate OptionalVector(a: map<Key, Value>, key: Key) {
    key in a ==> a[key].Null? || a[key].Vector?
  }

  /** The pydantic argument models of the mutation tools. */
  predicate ValidArguments(name: ToolName, a: map<Key, Value>)
    requires name in MUTATION_TOOLS
  {
    && a.Keys <= ArgumentKeys(name)
    && HasText(a, TargetKey)
    && match name
       case ToolSetMaterial => HasText(a, MaterialRefKey)
       case ToolSetColor => HasText(a, ColorKey)
       case ToolSetState => StateKey in a && ParseState(a[StateKey]).Some?
       case ToolAddObject => EntityKey in a && IsDict(a[EntityKey])
       case ToolRemoveObject => true
       case ToolReplaceObject => HasText(a, ReferenceKey)
       case ToolMoveObject => OptionalVector(a, TranslationKey) && OptionalVector(a, RotationKey) && OptionalVector(a, ScaleKey)
       case ToolSetLightIntent =>
         HasText(a, IntentKey)
         && (TemperatureKey in a ==> a[TemperatureKey].Null? || (a[TemperatureKey].Number? && 1000 <= a[TemperatureKey].n <= 20000))
  }

  /** tool_call_to_command. */
  function ToCommand(call: ToolCall): Result<Command, ToolError> {
    if call.name.None? then Err(UnknownTool)
    else if call.arguments.None? then Err(InvalidArguments)
    else if call.name.value !in MUTATION_TOOLS then Err(InvalidMode)
    else if !ValidArguments(call.name.value, call.arguments.value) then Err(InvalidArguments)
    else
      var name, a := call.name.value, call.arguments.value;
      var given := map k | k in a && a[k] != Null && k != TargetKey && !(name.ToolReplaceObject? && k == ReferenceKey) :: a[k];
      Ok(Command(OperationOf(name), a[TargetKey].s, given,
                 if name.ToolReplaceObject? then [a[ReferenceKey].s] else [], Agent))
  }

  /** No agent command unlocks, changes an intent or opens an envelope. */
  lemma AgentOperations(call: ToolCall)
    requires ToCommand(call).Ok?
    ensures var c := ToCommand(call).value;
            && !c.operation.SetIntent? && !c.operation.SetLocks? && !c.operation.AcceptConfirmedDeviation?
            && c.origin == Agent && Footprint(c) == {c.target}
            && (c.operation.ReplaceObjectFromReference? <==> c.references != [])
            && forall k | k in c.parameters :: c.parameters[k] == call.arguments.value[k] && c.parameters[k] != Null
  {
  }

  /** The command carries the call over: its target, its reference if any, and every other argument
      that is given and not null. */
  lemma CommandCarriesCall(call: ToolCall)
    requires ToCommand(call).Ok?
    ensures var c, a := ToCommand(call).value, call.arguments.value;
            && TargetKey in a && a[TargetKey] == Text(c.target) && c.target != ""
            && (if c.operation.ReplaceObjectFromReference?
                then |c.references| == 1 && ReferenceKey in a && a[ReferenceKey] == Text(c.references[0])
                else c.references == [])
            && (forall k | k in a && k !in {TargetKey, ReferenceKey} && a[k] != Null :: k in c.parameters && c.parameters[k] == a[k])
            && TargetKey !in c.parameters && ReferenceKey !in c.parameters
  {
  }

  // ---------------------------------------------------------------------
  // Names
  // ---------------------------------------------------------------------

  /** The names in MUTATION_TOOL_NAMES. */
  function ToolText(name: ToolName): string
    requires name in MUTATION_TOOLS
  {
    match name
    case ToolSetMaterial => "set_material"
    case ToolSetColor => "set_color"
    case ToolSetState => "set_state"
    case ToolAddObject => "add_object"
    case ToolRemoveObject => "remove_object"
    case ToolReplaceObject => "replace_object_from_reference"
    case ToolMoveObject => "move_object"
    case ToolSetLightIntent => "set_light_intent"
  }

  /** The values of CommandOperation. */
  function OperationText(operation: Operation): string {
    match operation
    case SetMaterial => "set_material"
    case SetColor => "set_color"
    case SetState => "set_state"
    case SetIntent => "set_intent"
    case SetLocks => "set_locks"
    case AddObject => "add_object"
    case RemoveObject => "remove_object"
    case ReplaceObjectFromReference => "replace_object_from_reference"
    case MoveObject => "move_object"
    case SetLightIntent => "set_light_intent"
    case AcceptConfirmedDeviation => "accept_confirmed_deviation"
  }

  /** A tool becomes the operation of the same name. */
  lemma ToolsKeepTheirNames(call: ToolCall)
    requires ToCommand(call).Ok?
    ensures call.name.Some? && call.name.value in MUTATION_TOOLS
    ensures OperationText(ToCommand(call).value.operation) == ToolText(call.name.value)
  {
  }

  predicate GivesText(a: map<Key, Value>, keys: set<Key>) {
    a.Keys == keys && forall k | k in keys :: a[k].Text? && a[k].s != ""
  }

  /** Which argument objects a mutation tool takes: exactly its own fields, each well-typed. */
  lemma AcceptedCalls(a: map<Key, Value>)
    ensures ToCommand(ToolCall(Some(ToolSetMaterial), Some(a))).Ok? <==> GivesText(a, {TargetKey, MaterialRefKey})
    ensures ToCommand(ToolCall(Some(ToolSetColor), Some(a))).Ok? <==> GivesText(a, {TargetKey, ColorKey})
    ensures ToCommand(ToolCall(Some(ToolRemoveObject), Some(a))).Ok? <==> GivesText(a, {TargetKey})
    ensures ToCommand(ToolCall(Some(ToolReplaceObject), Some(a))).Ok? <==> GivesText(a, {TargetKey, ReferenceKey})
    ensures ToCommand(ToolCall(Some(ToolSetState), Some(a))).Ok? <==>
              GivesText(a, {TargetKey, StateKey}) && a[StateKey].s in {"asis", "structure", "design"}
    ensures ToCommand(ToolCall(Some(ToolAddObject), Some(a))).Ok? <==>
              a.Keys == {TargetKey, EntityKey} && HasText(a, TargetKey) && IsDict(a[EntityKey])
    ensures ToCommand(ToolCall(Some(ToolMoveObject), Some(a))).Ok? <==>
              && HasText(a, TargetKey) && a.Keys <= {TargetKey, TranslationKey, RotationKey, ScaleKey}
              && forall k | k in a && k != TargetKey :: a[k].Null? || a[k].Vector?
    ensures ToCommand(ToolCall(Some(ToolSetLightIntent), Some(a))).Ok? <==>
              && HasText(a, TargetKey) && HasText(a, IntentKey) && a.Keys <= {TargetKey, IntentKey, TemperatureKey}
              && (TemperatureKey in a ==> a[TemperatureKey].Null? || (a[TemperatureKey].Number? && 1000 <= a[TemperatureKey].n <= 20000))
  {
    OkIffValid(a);
    ValidTexts(a);
    ValidState(a);
    ValidMove(a);
    hide ToCommand, ValidArguments;
  }

  lemma OkIffValid(a: map<Key, Value>)
    ensures forall name: ToolName | name in MUTATION_TOOLS ::
              ToCommand(ToolCall(Some(name), Some(a))).Ok? <==> ValidArguments(name, a)
  {
    hide ValidArguments;
  }

  lemma ValidTexts(a: map<Key, Value>)
    ensures ValidArguments(ToolSetMaterial, a) <==> GivesText(a, {TargetKey, MaterialRefKey})
    ensures ValidArguments(ToolSetColor, a) <==> GivesText(a, {TargetKey, ColorKey})
    ensures ValidArguments(ToolRemoveObject, a) <==> GivesText(a, {TargetKey})
    ensures ValidArguments(ToolReplaceObject, a) <==> GivesText(a, {TargetKey, ReferenceKey})
  {
  }

  lemma ValidState(a: map<Key, Value>)
    ensures ValidArguments(ToolSetState, a) <==>
              GivesText(a, {TargetKey, StateKey}) && a[StateKey].s in {"asis", "structure", "design"}
  {
    assert "asis" != "" && "structure" != "" && "design" != "";
  }

  lemma ValidMove(a: map<Key, Value>)
    ensures ValidArguments(ToolMoveObject, a) <==>
              && HasText(a, TargetKey) && a.Keys <= {TargetKey, TranslationKey, RotationKey, ScaleKey}
              && forall k | k in a && k != TargetKey :: a[k].Null? || a[k].Vector?
    ensures ValidArguments(ToolAddObject, a) <==>
              a.Keys == {TargetKey, EntityKey} && HasText(a, TargetKey) && IsDict(a[EntityKey])
    ensures ValidArguments(ToolSetLightIntent, a) <==>
              && HasText(a, TargetKey) && HasText(a, IntentKey) && a.Keys <= {TargetKey, IntentKey, TemperatureKey}
              && (TemperatureKey in a ==> a[TemperatureKey].Null? || (a[TemperatureKey].Number? && 1000 <= a[TemperatureKey].n <= 20000))
  {
  }

  /** A whole agent run: calls that are no command, or are rejected, change nothing. */
  function AgentRun(s: seq<Entity>, calls: seq<ToolCall>): seq<Entity>
    decreases |calls|
  {
    if calls == [] then s
    else
      var next := match ToCommand(calls[0]) case Ok(c) => ApplyOrKeep(s, c) case Err(_) => s;
      AgentRun(next, calls[1..])
  }

  // ---------------------------------------------------------------------
  // Owner protection
  // ---------------------------------------------------------------------

  /** Pinned by the owner: an existence or geometry lock, or the keep intent. */
  predicate Pinned(e: Entity) {
    e.locks.existence || e.locks.geometry || e.intent == Some(Keep)
  }

  predicate SameMeta(a: Entity, b: Entity, key: MetaKey) {
    (key in a.metadata <==> key in b.metadata) && (key in a.metadata ==> a.metadata[key] == b.metadata[key])
  }

  /** What the owner's pin and locks guarantee about the later entity `b`. */
  ghost predicate KeepsProtection(a: Entity, b: Entity) {
    && b.id == a.id && b.locks == a.locks && b.intent == a.intent && b.fixed == a.fixed
    && (Pinned(a) ==> SameMeta(a, b, ReplacementReference))
    && (a.locks.transform || a.locks.geometry ==> b.transform == a.transform)
    && (a.locks.material ==> b.materialRef == a.materialRef && SameMeta(a, b, Color))
    && (forall name: string :: SameMeta(a, b, OtherMeta(name)))
  }

  /** One agent edit of one entity respects its protection, and never drops a pinned one. */
  lemma AgentEffectKeepsProtection(e: Entity, c: Command)
    requires !c.operation.AddObject? && !c.operation.AcceptConfirmedDeviation?
    requires !c.operation.SetIntent? && !c.operation.SetLocks?
    requires Effect(e, c).Ok?
    ensures Pinned(e) ==> Effect(e, c).value.Put?
    ensures Effect(e, c).value.Put? ==> KeepsProtection(e, Effect(e, c).value.entity)
  {
  }

  lemma AgentStepKeepsProtection(s: seq<Entity>, call: ToolCall, id: string)
    requires ToCommand(call).Ok? && Find(s, id).Some? && Pinned(Find(s, id).value)
    ensures var after := Find(ApplyOrKeep(s, ToCommand(call).value), id);
            after.Some? && KeepsProtection(Find(s, id).value, after.value)
  {
    AgentOperations(call);
    var c := ToCommand(call).value;
    if Apply(s, c).Ok? {
      var op := OpOf(s, c);
      if op.Append? {
        FindAppended(s, op.entity, id);
      } else if op.id != id {
        SpliceFrame(s, op.id, op.edit, id);
      } else {
        AgentEffectKeepsProtection(Find(s, id).value, c);
        SpliceHit(s, id, op.edit);
      }
    }
  }

  /** Over any run of agent calls a pinned entity survives with its locks, intent and fixed
      fields, and with whatever its locks freeze. */
  lemma {:induction false} AgentRunKeepsProtection(s: seq<Entity>, calls: seq<ToolCall>, id: string)
    requires Find(s, id).Some? && Pinned(Find(s, id).value)
    ensures Find(AgentRun(s, calls), id).Some?
    ensures KeepsProtection(Find(s, id).value, Find(AgentRun(s, calls), id).value)
    decreases |calls|
  {
    if calls != [] {
      var next := match ToCommand(calls[0]) case Ok(c) => ApplyOrKeep(s, c) case Err(_) => s;
      if ToCommand(calls[0]).Ok? {
        AgentStepKeepsProtection(s, calls[0], id);
      }
      AgentRunKeepsProtection(next, calls[1..], id);
      ProtectionComposes(Find(s, id).value, Find(next, id).value, Find(AgentRun(s, calls), id).value);
    }
  }

  lemma ProtectionComposes(a: Entity, b: Entity, c: Entity)
    requires KeepsProtection(a, b) && KeepsProtection(b, c)
    ensures KeepsProtection(a, c)
  {
  }

  // ---------------------------------------------------------------------
  // The protection is no wider than that
  // ---------------------------------------------------------------------

  function RemoveCall(id: string): ToolCall {
    ToolCall(Some(ToolRemoveObject), Some(map[TargetKey := Text(id)]))
  }

  function MoveCall(id: string, to: Triple): ToolCall {
    ToolCall(Some(ToolMoveObject), Some(map[TargetKey := Text(id), TranslationKey := Vector(to)]))
  }

  function MaterialCall(id: string, materialRef: string): ToolCall {
    ToolCall(Some(ToolSetMaterial), Some(map[TargetKey := Text(id), MaterialRefKey := Text(materialRef)]))
  }

  /** An agent can remove a named entity iff the owner has not pinned it. */
  lemma RemovableIffNotPinned(s: seq<Entity>, id: string)
    requires id != "" && Find(s, id).Some?
    ensures Find(AgentRun(s, [RemoveCall(id)]), id).None? <==> !Pinned(Find(s, id).value)
  {
    hide ToCommand, AgentRun;
    var call := RemoveCall(id);
    RemoveCommand(id);
    var c := ToCommand(call).value;
    OneCall(s, call);
    if Apply(s, c).Ok? {
      SpliceHit(s, id, Drop);
    }
  }

  lemma RemoveCommand(id: string)
    requires id != ""
    ensures ToCommand(RemoveCall(id)).Ok?
    ensures var c := ToCommand(RemoveCall(id)).value; c.operation == RemoveObject && c.target == id
  {
  }

  lemma MoveCommand(id: string, to: Triple)
    requires id != ""
    ensures ToCommand(MoveCall(id, to)).Ok?
    ensures var c := ToCommand(MoveCall(id, to)).value;
            && c.operation == MoveObject && c.target == id
            && c.parameters == map[TranslationKey := Vector(to)]
  {
  }

  lemma OneCall(s: seq<Entity>, call: ToolCall)
    requires ToCommand(call).Ok?
    ensures AgentRun(s, [call]) == ApplyOrKeep(s, ToCommand(call).value)
  {
    assert [call][1..] == [];
  }

  lemma AgentRunStep(s: seq<Entity>, call: ToolCall, rest: seq<ToolCall>)
    ensures AgentRun(s, []) == s
    ensures AgentRun(s, [call] + rest)
         == AgentRun(if ToCommand(call).Ok? && Apply(s, ToCommand(call).value).Ok? then Apply(s, ToCommand(call).value).value else s, rest)
  {
    assert ([call] + rest)[1..] == rest;
  }

  /** An agent can put a named entity anywhere iff neither lock on its place is set. */
  lemma MovableIffUnlocked(s: seq<Entity>, id: string, to: Triple)
    requires id != "" && Find(s, id).Some? && Find(s, id).value.transform.translation != to
    ensures var after := Find(AgentRun(s, [MoveCall(id, to)]), id);
            after.Some? && (after.value.transform.translation == to
                            <==> !Find(s, id).value.locks.transform && !Find(s, id).value.locks.geometry)
  {
    hide ToCommand, AgentRun;
    var call := MoveCall(id, to);
    MoveCommand(id, to);
    var c := ToCommand(call).value;
    OneCall(s, call);
    if Apply(s, c).Ok? {
      SpliceHit(s, id, OpOf(s, c).edit);
    }
  }

  function ColorCall(id: string, color: string): ToolCall {
    ToolCall(Some(ToolSetColor), Some(map[TargetKey := Text(id), ColorKey := Text(color)]))
  }

  function StateCall(id: string, state: State): ToolCall {
    ToolCall(Some(ToolSetState), Some(map[TargetKey := Text(id), StateKey := Text(StateName(state))]))
  }

  function LightCall(id: string, intent: string, kelvin: int): ToolCall {
    ToolCall(Some(ToolSetLightIntent),
             Some(map[TargetKey := Text(id), IntentKey := Text(intent), TemperatureKey := Number(kelvin)]))
  }

  lemma ColorCommand(id: string, color: string)
    requires id != "" && color != ""
    ensures ToCommand(ColorCall(id, color)).Ok?
    ensures var c := ToCommand(ColorCall(id, color)).value;
            c.operation == SetColor && c.target == id && Get(c, ColorKey) == Text(color)
  {
  }

  lemma StateCommand(id: string, state: State)
    requires id != ""
    ensures ToCommand(StateCall(id, state)).Ok?
    ensures var c := ToCommand(StateCall(id, state)).value;
            c.operation == SetState && c.target == id && Get(c, StateKey) == Text(StateName(state))
    ensures StateName(state) in {"asis", "structure", "design"}
  {
    ParseStateIff(Text(StateName(state)));
  }

  lemma LightCommand(id: string, intent: string, kelvin: int)
    requires id != "" && intent != "" && 1000 <= kelvin <= 20000
    ensures ToCommand(LightCall(id, intent, kelvin)).Ok?
    ensures var c := ToCommand(LightCall(id, intent, kelvin)).value;
            && c.operation == SetLightIntent && c.target == id && Get(c, IntentKey) == Text(intent)
            && TemperatureKey in c.parameters && c.parameters[TemperatureKey] == Number(kelvin)
  {
  }

  /** A color call colors the entity iff its material is not locked. */
  lemma ColorableIffUnlocked(s: seq<Entity>, id: string, color: string)
    requires id != "" && color != "" && Find(s, id).Some?
    ensures var e, after := Find(s, id).value, Find(AgentRun(s, [ColorCall(id, color)]), id);
            && after.Some?
            && (if e.locks.material then after == Some(e)
                else OnlyMeta(e, after.value, {Color}) && HasMeta(after.value, Color, Text(color)))
  {
    hide ToCommand, AgentRun, Apply;
    var call := ColorCall(id, color);
    ColorCommand(id, color);
    var c := ToCommand(call).value;
    OneCall(s, call);
    SetColorWrites(s, c);
  }

  /** A state call sets the state of the entity unless that would make a part of the structure of
      something to be removed or replaced. */
  lemma StateCallWrites(s: seq<Entity>, id: string, state: State)
    requires id != "" && Find(s, id).Some?
    ensures var e, after := Find(s, id).value, Find(AgentRun(s, [StateCall(id, state)]), id);
            after == Some(if state == Structure && e.intent in {Some(Remove), Some(Replace)} then e else e.(state := state))
  {
    hide ToCommand, AgentRun, Apply, StateName, ParseState;
    var call := StateCall(id, state);
    StateCommand(id, state);
    var c := ToCommand(call).value;
    OneCall(s, call);
    SetStateWrites(s, c);
    StateNamesDiffer(state);
    if Apply(s, c).Ok? {
      StateNamesAgree(Now(s, c).value.state, state);
    }
  }

  lemma StateNamesDiffer(state: State)
    ensures StateName(state) == "structure" <==> state == Structure
  {
    ParseStateIff(Text(StateName(state)));
    assert ParseState(Text("structure")) == Some(Structure);
  }

  lemma StateNamesAgree(a: State, b: State)
    requires StateName(a) == StateName(b)
    ensures a == b
  {
    ParseStateIff(Text(StateName(a)));
  }

  /** A light call writes both the intent and the temperature. */
  lemma LightCallWrites(s: seq<Entity>, id: string, intent: string, kelvin: int)
    requires id != "" && intent != "" && 1000 <= kelvin <= 20000 && Find(s, id).Some?
    ensures var e, after := Find(s, id).value, Find(AgentRun(s, [LightCall(id, intent, kelvin)]), id);
            && after.Some? && OnlyMeta(e, after.value, {LightIntent, TemperatureK})
            && HasMeta(after.value, LightIntent, Text(intent)) && HasMeta(after.value, TemperatureK, Number(kelvin))
  {
    hide ToCommand, AgentRun, Apply;
    var call := LightCall(id, intent, kelvin);
    LightCommand(id, intent, kelvin);
    var c := ToCommand(call).value;
    OneCall(s, call);
    SetLightIntentWrites(s, c);
  }

  /** An agent can repaint a named entity iff its material is not locked. */
  lemma PaintableIffUnlocked(s: seq<Entity>, id: string, materialRef: string)
    requires id != "" && materialRef != "" && Find(s, id).Some? && Find(s, id).value.materialRef != Some(materialRef)
    ensures var after := Find(AgentRun(s, [MaterialCall(id, materialRef)]), id);
            after.Some? && (after.value.materialRef == Some(materialRef) <==> !Find(s, id).value.locks.material)
  {
    var call := MaterialCall(id, materialRef);
    var c := ToCommand(call).value;
    assert c.operation == SetMaterial && c.target == id && Get(c, MaterialRefKey) == Text(materialRef);
    OneCall(s, call);
    if Apply(s, c).Ok? {
      SpliceHit(s, id, OpOf(s, c).edit);
    }
  }
}
