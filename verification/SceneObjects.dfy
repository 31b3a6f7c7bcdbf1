/** apply_command in place: it deep-copies the scene and mutates the copy
    (src/stroy/domain/commands.py). */
module SceneObjects {
  import opened Wrappers
  import opened SceneModel
  import opened SceneLaws
  import opened SceneWrites

  class SceneEntity {
    const id: string
    const fixed: Fixed
    var state: State
    var intent: Option<Intent>
    var transform: Placement
    var materialRef: Option<string>
    var locks: LockSet
    var metadata: map<MetaKey, Value>

    constructor (e: Entity)
      ensures View() == e
    {
      id, fixed := e.id, e.fixed;
      state, intent, transform := e.state, e.intent, e.transform;
      materialRef, locks, metadata := e.materialRef, e.locks, e.metadata;
    }

    function View(): Entity
      reads this
    {
      Entity(id, state, intent, transform, materialRef, locks, metadata, fixed)
    }
  }

  class Scene {
    var entities: seq<SceneEntity>

    constructor ()
      ensures entities == []
    {
      entities := [];
    }

    ghost function View(): (v: seq<Entity>)
      reads this, entities
      ensures |v| == |entities|
      ensures forall i | 0 <= i < |entities| :: v[i] == entities[i].View()
    {
      seq(|entities|, i requires 0 <= i < |entities| reads this, entities => entities[i].View())
    }

    /** No entity object occurs twice. */
    ghost predicate Distinct()
      reads this
    {
      forall i, j | 0 <= i < j < |entities| :: entities[i] != entities[j]
    }

    /** model_copy(deep=True). */
    method DeepCopy() returns (copy: Scene)
      ensures fresh(copy) && fresh(copy.entities)
      ensures copy.View() == View() && copy.Distinct()
    {
      copy := new Scene();
      for index := 0 to |entities|
        invariant fresh(copy) && fresh(copy.entities) && copy.Distinct()
        invariant copy.View() == View()[..index]
      {
        var e := entities[index];
        var twin := new SceneEntity(Entity(e.id, e.state, e.intent, e.transform, e.materialRef, e.locks, e.metadata, e.fixed));
        copy.entities := copy.entities + [twin];
      }
    }

    /** _entity: the first entity with that id. */
    method Lookup(id: string) returns (found: Option<SceneEntity>, ghost at: nat)
      ensures found.Some? <==> Find(View(), id).Some?
      ensures found.Some? ==>
                && at < |entities| && entities[at] == found.value && found.value.id == id
                && (forall i | 0 <= i < at :: entities[i].id != id)
                && Find(View(), id) == Some(found.value.View())
    {
      at := 0;
      for index := 0 to |entities|
        invariant forall i | 0 <= i < index :: entities[i].id != id
      {
        if entities[index].id == id {
          FindAt(View(), id, index);
          return Some(entities[index]), index;
        }
      }
      found := None;
    }

    /** [entity for entity in entities if entity.id != id]. */
    method RemoveAll(id: string)
      modifies this
      ensures View() == Without(old(View()), id)
      ensures forall e | e in entities :: e in old(entities)
    {
      hide Without;
      var kept: seq<SceneEntity> := [];
      ghost var all, views: seq<Entity> := View(), [];
      NothingLeft(id);
      for index := 0 to |entities|
        invariant entities == old(entities)
        invariant |views| == |kept| && forall i | 0 <= i < |kept| :: kept[i] in entities && views[i] == kept[i].View()
        invariant views == Without(all[..index], id)
      {
        WithoutAppended(all[..index], all[index], id);
        assert all[..index] + [all[index]] == all[..index + 1];
        if entities[index].id != id {
          kept, views := kept + [entities[index]], views + [all[index]];
        }
      }
      assert all[..|all|] == all;
      entities := kept;
      assert View() == views;
    }
  }

  lemma NothingLeft(id: string)
    ensures Without([], id) == []
  {
  }

  lemma {:induction false} WithoutAppended(s: seq<Entity>, e: Entity, id: string)
    ensures Without(s + [e], id) == Without(s, id) + if e.id == id then [] else [e]
  {
    if s == [] {
      assert s + [e] == [e] && [e][1..] == [];
    } else {
      assert (s + [e])[1..] == s[1..] + [e];
      WithoutAppended(s[1..], e, id);
    }
  }

  lemma {:induction false} FindAt(s: seq<Entity>, id: string, at: nat)
    requires at < |s| && s[at].id == id && forall i | 0 <= i < at :: s[i].id != id
    ensures Find(s, id) == Some(s[at])
  {
    if at > 0 {
      FindAt(s[1..], id, at - 1);
    }
  }

  /** Overwriting the first match is PutFirst. */
  lemma {:induction false} PutFirstAt(s: seq<Entity>, id: string, at: nat, e: Entity)
    requires at < |s| && s[at].id == id && forall i | 0 <= i < at :: s[i].id != id
    ensures PutFirst(s, id, e) == s[at := e]
  {
    if at > 0 {
      PutFirstAt(s[1..], id, at - 1, e);
      assert s[1..][at - 1 := e] == s[at := e][1..];
    }
  }

  /** Merge lock flags in order; None at the first bad item. */
  method MergedLocks(current: LockSet, items: seq<LockItem>) returns (locks: Option<LockSet>)
    ensures locks == MergeLocks(current, items)
    ensures locks.Some? <==> forall i | 0 <= i < |items| :: IsFlagItem(items[i])
    ensures locks.Some? ==>
              forall key | IsLock(key) :: FollowsItems(Flag(current, key), Flag(locks.value, key), items, key)
  {
    MergeFollowsItems(current, items);
    hide FollowsItems, Flag, IsFlagItem;
    var merged := current;
    for index := 0 to |items|
      invariant MergeLocks(merged, items[index..]) == MergeLocks(current, items)
    {
      assert items[index..][1..] == items[index + 1..];
      var next := LocksAfter(merged, items[index]);
      if next.None? {
        return None;
      }
      merged := next.value;
    }
    locks := Some(merged);
  }

  /** Apply one of the single-entity updates to `target` in place. */
  method Update(target: SceneEntity, command: Command) returns (error: Option<Error>)
    requires !command.operation.AddObject? && !command.operation.AcceptConfirmedDeviation? && !command.operation.RemoveObject?
    modifies target
    ensures match Effect(old(target.View()), command)
            case Err(e) => error == Some(e) && unchanged(target)
            case Ok(edit) => error == None && edit == Put(target.View())
  {
    error := None;
    match command.operation {
      case SetState =>
        var nextState := ParseState(Get(command, StateKey));
        if nextState.None? {
          return Some(Rejected);
        }
        if nextState.value == Structure && target.intent in {Some(Remove), Some(Replace)} {
          return Some(Rejected);
        }
        target.state := nextState.value;
      case SetMaterial =>
        if target.locks.material {
          return Some(Rejected);
        }
        var materialRef := Get(command, MaterialRefKey);
        if !IsNonEmptyText(materialRef) {
          return Some(Rejected);
        }
        target.materialRef := Some(materialRef.s);
      case SetColor =>
        if target.locks.material {
          return Some(Rejected);
        }
        var color := Get(command, ColorKey);
        if !IsNonEmptyText(color) {
          return Some(Rejected);
        }
        target.metadata := target.metadata[Color := color];
      case MoveObject =>
        if target.locks.transform || target.locks.geometry {
          return Some(Rejected);
        }
        var current := Moved(command, target.transform);
        if current.None? {
          return Some(InvalidPayload);
        }
        target.transform := current.value;
      case ReplaceObjectFromReference =>
        if target.locks.existence {
          return Some(Rejected);
        }
        if target.intent in {Some(Keep), Some(Remove)} {
          return Some(Rejected);
        }
        if target.locks.geometry {
          return Some(Rejected);
        }
        if command.references == [] {
          return Some(Rejected);
        }
        target.metadata := target.metadata[ReplacementReference := Text(command.references[0])];
      case SetIntent =>
        var rawIntent := Get(command, IntentKey);
        if rawIntent == Null {
          target.intent := None;
          return None;
        }
        var nextIntent := ParseIntent(rawIntent);
        if nextIntent.None? {
          return Some(Rejected);
        }
        if target.state == Structure && nextIntent.value in {Remove, Replace} {
          return Some(Rejected);
        }
        target.intent := nextIntent;
      case SetLocks =>
        var rawLocks := Get(command, LocksKey);
        if !IsDict(rawLocks) {
          return Some(Rejected);
        }
        var locks := MergedLocks(target.locks, LockItems(rawLocks));
        if locks.None? {
          return Some(Rejected);
        }
        target.locks := locks.value;
      case SetLightIntent =>
        var intent := Get(command, IntentKey);
        if !Truthy(intent) {
          return Some(Rejected);
        }
        target.metadata := target.metadata[LightIntent := intent];
        if TemperatureKey in command.parameters {
          target.metadata := target.metadata[TemperatureK := command.parameters[TemperatureKey]];
        }
    }
  }

  /** The guards of remove_object. */
  method RemovalError(target: SceneEntity, command: Command) returns (error: Option<Error>)
    requires command.operation.RemoveObject?
    ensures Effect(target.View(), command) == if error.None? then Ok(Drop) else Err(error.value)
  {
    if target.locks.existence {
      return Some(Rejected);
    }
    if target.intent == Some(Keep) {
      return Some(Rejected);
    }
    if target.locks.geometry {
      return Some(Rejected);
    }
    error := None;
  }

  /** Edit or remove the entity found at `at`. */
  method EditInPlace(result: Scene, target: SceneEntity, ghost at: nat, command: Command) returns (error: Option<Error>)
    requires !command.operation.AddObject? && !command.operation.AcceptConfirmedDeviation?
    requires result.Distinct() && at < |result.entities| && result.entities[at] == target
    requires forall i | 0 <= i < at :: result.entities[i].id != target.id
    modifies result, target
    ensures match Effect(old(target.View()), command)
            case Err(e) => error == Some(e)
            case Ok(edit) => error == None && result.View() == Splice(old(result.View()), target.id, edit)
    ensures forall e | e in result.entities :: e in old(result.entities)
  {
    hide Effect;
    hide PutFirst;
    hide Without;
    ghost var before := result.View();
    if command.operation.RemoveObject? {
      error := RemovalError(target, command);
      if error.None? {
        result.RemoveAll(target.id);
      }
    } else {
      error := Update(target, command);
      if error.None? {
        PutFirstAt(before, target.id, at, target.View());
        assert result.View() == before[at := target.View()];
      }
    }
  }

  /** Append the new entity unless its id is taken. */
  method AddInPlace(result: Scene, command: Command) returns (error: Option<Error>)
    requires command.operation.AddObject?
    modifies result
    ensures match Apply(old(result.View()), command)
            case Err(e) => error == Some(e)
            case Ok(v) => error == None && result.View() == v
    ensures forall e | e in result.entities :: e in old(result.entities) || fresh(e)
  {
    hide Addition;
    var addition := Addition(command);
    if addition.Err? {
      return Some(addition.error);
    }
    var existing, _ := result.Lookup(addition.value.id);
    if existing.Some? {
      return Some(Conflict);
    }
    ghost var before := result.View();
    var entity := new SceneEntity(addition.value);
    result.entities := result.entities + [entity];
    assert result.View() == before + [addition.value];
    error := None;
  }

  /** Apply, case by case. */
  lemma ApplyUnfolds(s: seq<Entity>, c: Command)
    requires !c.operation.AddObject?
    ensures Find(s, c.target).None? ==> Apply(s, c) == Err(UnknownTarget)
    ensures Find(s, c.target).Some? && c.operation.AcceptConfirmedDeviation? ==>
              Apply(s, c) == if Embedded(c).Err? then Err(Embedded(c).error) else Apply(s, Embedded(c).value)
    ensures Find(s, c.target).Some? && !c.operation.AcceptConfirmedDeviation? ==>
              var effect := Effect(Find(s, c.target).value, c);
              Apply(s, c) == if effect.Err? then Err(effect.error) else Ok(Splice(s, c.target, effect.value))
  {
  }

  /** A command other than the accept envelope, applied to a deep copy. */
  method ApplyUnwrapped(scene: Scene, command: Command) returns (r: Result<Scene, Error>)
    requires !command.operation.AcceptConfirmedDeviation?
    ensures match Apply(scene.View(), command)
            case Err(e) => r == Err(e)
            case Ok(v) => r.Ok? && r.value.View() == v
    ensures r.Ok? ==> fresh(r.value) && forall e | e in r.value.entities :: fresh(e)
  {
    hide *;
    if !command.operation.AddObject? {
      ApplyUnfolds(scene.View(), command);
    }
    var result := scene.DeepCopy();
    var error;
    if command.operation.AddObject? {
      error := AddInPlace(result, command);
    } else {
      var found, at := result.Lookup(command.target);
      if found.None? {
        return Err(UnknownTarget);
      }
      error := EditInPlace(result, found.value, at, command);
    }
    r := if error.Some? then Err(error.value) else Ok(result);
  }

  /** apply_command: a fresh scene holding exactly what the value-level Apply says, or its
      error; the scene passed in is not modified. */
  method ApplyCommand(scene: Scene, command: Command) returns (r: Result<Scene, Error>)
    ensures match Apply(scene.View(), command)
            case Err(e) => r == Err(e)
            case Ok(v) => r.Ok? && r.value.View() == v
    ensures r.Ok? ==> fresh(r.value) && forall e | e in r.value.entities :: fresh(e)
    decreases if command.operation.AcceptConfirmedDeviation? then 1 else 0
  {
    hide *;
    if !command.operation.AcceptConfirmedDeviation? {
      r := ApplyUnwrapped(scene, command);
      return r;
    }
    ApplyUnfolds(scene.View(), command);
    var result := scene.DeepCopy();
    var found, _ := result.Lookup(command.target);
    if found.None? {
      return Err(UnknownTarget);
    }
    var change := Embedded(command);
    if change.Err? {
      return Err(change.error);
    }
    r := ApplyCommand(result, change.value);
  }
}
