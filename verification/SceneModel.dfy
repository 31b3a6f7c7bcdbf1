/** Scenes, commands and apply_command on values (src/stroy/domain/commands.py,
    src/stroy/domain/models.py). */
module SceneModel {
  import opened Wrappers

  datatype State = Asis | Structure | Design

  datatype Intent = Keep | Remove | Replace

  datatype LockSet = LockSet(geometry: bool, transform: bool, material: bool, existence: bool)

  datatype Triple = Triple(x: real, y: real, z: real)

  datatype Placement = Placement(translation: Triple, rotation: Triple, scale: Triple)

  datatype MetaKey = Color | ReplacementReference | LightIntent | TemperatureK | OtherMeta(name: string)

  /** The entity fields no command touches. */
  datatype Fixed = Fixed(kind: string, room: Option<string>, displayName: Option<string>, geometry: Value, provenance: Value)

  datatype Entity = Entity(
    id: string,
    state: State,
    intent: Option<Intent>,
    transform: Placement,
    materialRef: Option<string>,
    locks: LockSet,
    metadata: map<MetaKey, Value>,
    fixed: Fixed)

  datatype LockKey = GeometryLock | TransformLock | MaterialLock | ExistenceLock | UnknownLock(name: string)

  datatype LockItem = LockItem(key: LockKey, value: Value)

  /** A JSON value, as far as the command handlers can tell values apart. */
  datatype Value =
    | Null
    | Boolean(b: bool)
    | Number(n: int)
    | Text(s: string)
    | Vector(v: Triple)
    | EntityDict(entity: Entity, hasState: bool)  // a dict SceneEntity.model_validate accepts
    | LockDict(items: seq<LockItem>)              // a dict of lock flags, in order
    | CommandDict(command: Command)               // a dict DesignCommand.model_validate accepts
    | OtherDict(name: string)                     // any other, non-empty, dict
    | OtherValue(name: string)

  datatype Key =
    | EntityKey | StateKey | MaterialRefKey | ColorKey | TranslationKey | RotationKey | ScaleKey
    | IntentKey | LocksKey | TemperatureKey | DeviationKey | ChangeKey
    | TargetKey | ReferenceKey | OtherKey(name: string)

  datatype Operation =
    | SetMaterial | SetColor | SetState | SetIntent | SetLocks | AddObject | RemoveObject
    | ReplaceObjectFromReference | MoveObject | SetLightIntent | AcceptConfirmedDeviation

  datatype Origin = User | Agent | System

  datatype Command = Command(
    operation: Operation,
    target: string,
    parameters: map<Key, Value>,
    references: seq<string>,
    origin: Origin)

  /** CommandRejected for an unknown target or a failed guard, CommandConflict,
      and the validation error of a malformed payload. */
  datatype Error = UnknownTarget | Rejected | Conflict | InvalidPayload

  predicate IsDict(v: Value) {
    v.EntityDict? || v.LockDict? || v.CommandDict? || v.OtherDict?
  }

  predicate IsNonEmptyText(v: Value) {
    v.Text? && v.s != ""
  }

  /** Python truthiness. */
  predicate Truthy(v: Value) {
    match v
    case Null => false
    case Boolean(b) => b
    case Number(n) => n != 0
    case Text(s) => s != ""
    case LockDict(items) => items != []
    case _ => true
  }

  /** parameters.get(key). */
  function Get(c: Command, key: Key): Value {
    if key in c.parameters then c.parameters[key] else Null
  }

  function ParseState(v: Value): Option<State> {
    if v == Text("asis") then Some(Asis)
    else if v == Text("structure") then Some(Structure)
    else if v == Text("design") then Some(Design)
    else None
  }

  function ParseIntent(v: Value): Option<Intent> {
    if v == Text("keep") then Some(Keep)
    else if v == Text("remove") then Some(Remove)
    else if v == Text("replace") then Some(Replace)
    else None
  }

  // ---------------------------------------------------------------------
  // Entity lists
  // ---------------------------------------------------------------------

  /** _entity: the first entity with that id. */
  function Find(s: seq<Entity>, id: string): (e: Option<Entity>)
    ensures e.Some? ==> e.value.id == id && e.value in s
    ensures e.Some? <==> exists i :: 0 <= i < |s| && s[i].id == id
  {
    if s == [] then None
    else if s[0].id == id then Some(s[0])
    else
      assert forall i | 1 <= i < |s| :: s[i] == s[1..][i - 1];
      Find(s[1..], id)
  }

  /** What a command does to the entity it names. */
  datatype Edit = Put(entity: Entity) | Drop

  function PutFirst(s: seq<Entity>, id: string, e: Entity): seq<Entity> {
    if s == [] then []
    else if s[0].id == id then [e] + s[1..]
    else [s[0]] + PutFirst(s[1..], id, e)
  }

  function Without(s: seq<Entity>, id: string): seq<Entity> {
    if s == [] then []
    else if s[0].id == id then Without(s[1..], id)
    else [s[0]] + Without(s[1..], id)
  }

  /** Replace the first entity with that id, or drop all of them. */
  function Splice(s: seq<Entity>, id: string, edit: Edit): seq<Entity> {
    match edit
    case Put(e) => PutFirst(s, id, e)
    case Drop => Without(s, id)
  }

  // ---------------------------------------------------------------------
  // The operations on one entity
  // ---------------------------------------------------------------------

  function LocksAfter(current: LockSet, item: LockItem): Option<LockSet> {
    if !item.value.Boolean? then None
    else
      match item.key
      case GeometryLock => Some(current.(geometry := item.value.b))
      case TransformLock => Some(current.(transform := item.value.b))
      case MaterialLock => Some(current.(material := item.value.b))
      case ExistenceLock => Some(current.(existence := item.value.b))
      case UnknownLock(_) => None
  }

  /** Merge lock flags left to right; None at the first unknown key or non-boolean. */
  function MergeLocks(current: LockSet, items: seq<LockItem>): Option<LockSet>
    decreases |items|
  {
    if items == [] then Some(current)
    else
      match LocksAfter(current, items[0])
      case None => None
      case Some(next) => MergeLocks(next, items[1..])
  }

  /** The items of a dict given as locks; a dict of any other shape has an unknown key. */
  function LockItems(v: Value): seq<LockItem>
    requires IsDict(v)
  {
    if v.LockDict? then v.items else [LockItem(UnknownLock("other"), Null)]
  }

  /** One placement field after a move; None when the given value is not a vector. */
  function MovedField(c: Command, key: Key, current: Triple): Option<Triple> {
    if key !in c.parameters then Some(current)
    else if c.parameters[key].Vector? then Some(c.parameters[key].v)
    else None
  }

  function Moved(c: Command, current: Placement): Option<Placement> {
    var t, r, s := MovedField(c, TranslationKey, current.translation),
                   MovedField(c, RotationKey, current.rotation), MovedField(c, ScaleKey, current.scale);
    if t.None? || r.None? || s.None? then None else Some(Placement(t.value, r.value, s.value))
  }

  /** Guards and update of every operation but add_object and the accept envelope. */
  function Effect(e: Entity, c: Command): (r: Result<Edit, Error>)
    requires !c.operation.AddObject? && !c.operation.AcceptConfirmedDeviation?
    ensures r.Ok? && r.value.Put? ==> r.value.entity.id == e.id
  {
    match c.operation
    case SetState =>
      (match ParseState(Get(c, StateKey))
       case None => Err(Rejected)
       case Some(state) =>
         if state == Structure && e.intent in {Some(Remove), Some(Replace)} then Err(Rejected)
         else Ok(Put(e.(state := state))))
    case SetMaterial =>
      if e.locks.material || !IsNonEmptyText(Get(c, MaterialRefKey)) then Err(Rejected)
      else Ok(Put(e.(materialRef := Some(Get(c, MaterialRefKey).s))))
    case SetColor =>
      if e.locks.material || !IsNonEmptyText(Get(c, ColorKey)) then Err(Rejected)
      else Ok(Put(e.(metadata := e.metadata[Color := Get(c, ColorKey)])))
    case MoveObject =>
      if e.locks.transform || e.locks.geometry then Err(Rejected)
      else (match Moved(c, e.transform)
            case None => Err(InvalidPayload)
            case Some(placement) => Ok(Put(e.(transform := placement))))
    case RemoveObject =>
      if e.locks.existence || e.intent == Some(Keep) || e.locks.geometry then Err(Rejected)
      else Ok(Drop)
    case ReplaceObjectFromReference =>
      if e.locks.existence || e.intent in {Some(Keep), Some(Remove)} || e.locks.geometry || c.references == [] then Err(Rejected)
      else Ok(Put(e.(metadata := e.metadata[ReplacementReference := Text(c.references[0])])))
    case SetIntent =>
      if Get(c, IntentKey) == Null then Ok(Put(e.(intent := None)))
      else (match ParseIntent(Get(c, IntentKey))
            case None => Err(Rejected)
            case Some(intent) =>
              if e.state == Structure && intent in {Remove, Replace} then Err(Rejected)
              else Ok(Put(e.(intent := Some(intent)))))
    case SetLocks =>
      if !IsDict(Get(c, LocksKey)) then Err(Rejected)
      else (match MergeLocks(e.locks, LockItems(Get(c, LocksKey)))
            case None => Err(Rejected)
            case Some(locks) => Ok(Put(e.(locks := locks))))
    case SetLightIntent =>
      if !Truthy(Get(c, IntentKey)) then Err(Rejected)
      else
        var lit := e.metadata[LightIntent := Get(c, IntentKey)];
        Ok(Put(e.(metadata := if TemperatureKey in c.parameters then lit[TemperatureK := c.parameters[TemperatureKey]] else lit)))
  }

  // ---------------------------------------------------------------------
  // apply_command
  // ---------------------------------------------------------------------

  /** The entity an add_object would append; clients that name no state add design objects. */
  function Addition(c: Command): Result<Entity, Error> {
    var raw := Get(c, EntityKey);
    if !IsDict(raw) then Err(Rejected)
    else if !raw.EntityDict? then Err(InvalidPayload)
    else if raw.entity.id != c.target then Err(Rejected)
    else Ok(if raw.hasState then raw.entity else raw.entity.(state := Design))
  }

  /** The change an accept envelope carries. */
  function Embedded(c: Command): (r: Result<Command, Error>)
    ensures r.Ok? ==> !r.value.operation.AcceptConfirmedDeviation?
  {
    if !IsNonEmptyText(Get(c, DeviationKey)) || !Get(c, ChangeKey).CommandDict? then Err(Rejected)
    else if Get(c, ChangeKey).command.operation.AcceptConfirmedDeviation? then Err(Rejected)
    else Ok(Get(c, ChangeKey).command)
  }

  /** apply_command. The measure shows the recursion is at most one deep. */
  function Apply(s: seq<Entity>, c: Command): Result<seq<Entity>, Error>
    decreases if c.operation.AcceptConfirmedDeviation? then 1 else 0
  {
    if c.operation.AddObject? then
      match Addition(c)
      case Err(e) => Err(e)
      case Ok(entity) => if Find(s, entity.id).Some? then Err(Conflict) else Ok(s + [entity])
    else
      match Find(s, c.target)
      case None => Err(UnknownTarget)
      case Some(target) =>
        if c.operation.AcceptConfirmedDeviation? then
          (match Embedded(c)
           case Err(e) => Err(e)
           case Ok(change) => Apply(s, change))
        else
          match Effect(target, c)
          case Err(e) => Err(e)
          case Ok(edit) => Ok(Splice(s, target.id, edit))
  }

  /** Rejected commands leave the scene as it was. */
  function ApplyOrKeep(s: seq<Entity>, c: Command): seq<Entity> {
    match Apply(s, c)
    case Ok(next) => next
    case Err(_) => s
  }

  function Run(s: seq<Entity>, commands: seq<Command>): seq<Entity>
    decreases |commands|
  {
    if commands == [] then s else Run(ApplyOrKeep(s, commands[0]), commands[1..])
  }
}
