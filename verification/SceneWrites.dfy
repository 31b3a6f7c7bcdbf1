/** What each operation of apply_command accepts and writes (src/stroy/domain/commands.py),
    read off the scene before and after it. */
module SceneWrites {
  import opened Wrappers
  import opened SceneModel
  import opened SceneLaws

  // ---------------------------------------------------------------------
  // Names
  // ---------------------------------------------------------------------

  /** The JSON names of the states and intents. */
  function StateName(s: State): string {
    match s
    case Asis => "asis"
    case Structure => "structure"
    case Design => "design"
  }

  function IntentName(i: Intent): string {
    match i
    case Keep => "keep"
    case Remove => "remove"
    case Replace => "replace"
  }

  lemma ParseStateIff(v: Value)
    ensures ParseState(v).Some? ==> v == Text(StateName(ParseState(v).value))
    ensures forall s: State :: ParseState(Text(StateName(s))) == Some(s)
  {
    assert "asis"[0] != "structure"[0] && "asis"[0] != "design"[0] && "structure"[0] != "design"[0];
  }

  lemma ParseIntentIff(v: Value)
    ensures ParseIntent(v).Some? ==> v == Text(IntentName(ParseIntent(v).value))
    ensures forall i: Intent :: ParseIntent(Text(IntentName(i))) == Some(i)
  {
    assert "keep"[0] != "remove"[0] && "keep"[0] != "replace"[0] && "remove"[2] != "replace"[2];
  }

  // ---------------------------------------------------------------------
  // Edits of one entity
  // ---------------------------------------------------------------------

  /** The entity a command names, before it. */
  function Before(s: seq<Entity>, c: Command): Entity
    requires Find(s, c.target).Some?
  {
    Find(s, c.target).value
  }

  /** The entity of that id after the command. */
  function Now(s: seq<Entity>, c: Command): Option<Entity>
    requires Apply(s, c).Ok?
  {
    Find(Apply(s, c).value, c.target)
  }

  /** An accepted edit replaces the named entity and no other. */
  lemma EditLands(s: seq<Entity>, c: Command)
    requires Find(s, c.target).Some?
    requires !c.operation.AddObject? && !c.operation.AcceptConfirmedDeviation?
    ensures Apply(s, c).Ok? <==> Effect(Before(s, c), c).Ok?
    ensures Apply(s, c).Ok? ==>
              Now(s, c) == match Effect(Before(s, c), c).value case Put(e) => Some(e) case Drop => None
    ensures Apply(s, c).Ok? ==> forall id | id != c.target :: Find(Apply(s, c).value, id) == Find(s, id)
  {
    if Apply(s, c).Ok? {
      var edit := Effect(Before(s, c), c).value;
      SpliceHit(s, c.target, edit);
      forall id | id != c.target ensures Find(Apply(s, c).value, id) == Find(s, id) {
        SpliceFrame(s, c.target, edit, id);
      }
    }
  }

  lemma SetStateWrites(s: seq<Entity>, c: Command)
    requires c.operation.SetState? && Find(s, c.target).Some?
    ensures var e, v := Before(s, c), Get(c, StateKey);
            && (Apply(s, c).Ok? <==>
                  && v in {Text("asis"), Text("structure"), Text("design")}
                  && !(v == Text("structure") && e.intent in {Some(Remove), Some(Replace)}))
            && (Apply(s, c).Ok? ==>
                  && Now(s, c).Some?
                  && v == Text(StateName(Now(s, c).value.state)) && Now(s, c).value == e.(state := Now(s, c).value.state))
  {
    EditLands(s, c);
    ParseStateIff(Get(c, StateKey));
  }

  lemma SetIntentWrites(s: seq<Entity>, c: Command)
    requires c.operation.SetIntent? && Find(s, c.target).Some?
    ensures var e, v := Before(s, c), Get(c, IntentKey);
            && (Apply(s, c).Ok? <==>
                  || v in {Null, Text("keep")}
                  || (v in {Text("remove"), Text("replace")} && e.state != Structure))
            && (Apply(s, c).Ok? ==>
                  && Now(s, c).Some? && Now(s, c).value == e.(intent := Now(s, c).value.intent)
                  && match Now(s, c).value.intent
                     case None => v == Null
                     case Some(i) => v == Text(IntentName(i)))
  {
    EditLands(s, c);
    ParseIntentIff(Get(c, IntentKey));
  }

  lemma SetMaterialWrites(s: seq<Entity>, c: Command)
    requires c.operation.SetMaterial? && Find(s, c.target).Some?
    ensures var e, v := Before(s, c), Get(c, MaterialRefKey);
            && (Apply(s, c).Ok? <==> !e.locks.material && v.Text? && v.s != "")
            && (Apply(s, c).Ok? ==> Now(s, c) == Some(e.(materialRef := Some(v.s))))
  {
    EditLands(s, c);
  }

  /** The two entities differ in these metadata entries at most, and in nothing else. */
  ghost predicate OnlyMeta(e: Entity, after: Entity, keys: set<MetaKey>) {
    && after == e.(metadata := after.metadata)
    && forall k: MetaKey | k !in keys ::
         (k in after.metadata <==> k in e.metadata) && (k in e.metadata ==> after.metadata[k] == e.metadata[k])
  }

  ghost predicate HasMeta(e: Entity, key: MetaKey, v: Value) {
    key in e.metadata && e.metadata[key] == v
  }

  lemma SetColorWrites(s: seq<Entity>, c: Command)
    requires c.operation.SetColor? && Find(s, c.target).Some?
    ensures var e, v := Before(s, c), Get(c, ColorKey);
            && (Apply(s, c).Ok? <==> !e.locks.material && v.Text? && v.s != "")
            && (Apply(s, c).Ok? ==>
                  Now(s, c).Some? && OnlyMeta(e, Now(s, c).value, {Color}) && HasMeta(Now(s, c).value, Color, v))
  {
    EditLands(s, c);
  }

  lemma ReplaceWrites(s: seq<Entity>, c: Command)
    requires c.operation.ReplaceObjectFromReference? && Find(s, c.target).Some?
    ensures var e := Before(s, c);
            && (Apply(s, c).Ok? <==>
                  && !e.locks.existence && !e.locks.geometry && e.intent in {None, Some(Replace)} && c.references != [])
            && (Apply(s, c).Ok? ==>
                  Now(s, c).Some? && OnlyMeta(e, Now(s, c).value, {ReplacementReference})
                  && HasMeta(Now(s, c).value, ReplacementReference, Text(c.references[0])))
  {
    var intent := Before(s, c).intent;
    assert intent.Some? ==> intent.value.Keep? || intent.value.Remove? || intent.value.Replace?;
    EditLands(s, c);
  }

  lemma SetLightIntentWrites(s: seq<Entity>, c: Command)
    requires c.operation.SetLightIntent? && Find(s, c.target).Some?
    ensures var e, v := Before(s, c), Get(c, IntentKey);
            && (Apply(s, c).Ok? <==> v !in {Null, Boolean(false), Number(0), Text(""), LockDict([])})
            && (Apply(s, c).Ok? ==>
                  && Now(s, c).Some? && HasMeta(Now(s, c).value, LightIntent, v)
                  && (if TemperatureKey in c.parameters
                      then OnlyMeta(e, Now(s, c).value, {LightIntent, TemperatureK})
                           && HasMeta(Now(s, c).value, TemperatureK, c.parameters[TemperatureKey])
                      else OnlyMeta(e, Now(s, c).value, {LightIntent})))
  {
    EditLands(s, c);
  }

  lemma EffectErrors(s: seq<Entity>, c: Command)
    requires Find(s, c.target).Some?
    requires !c.operation.AddObject? && !c.operation.AcceptConfirmedDeviation?
    ensures Apply(s, c).Err? ==> Effect(Before(s, c), c) == Err(Apply(s, c).error)
  {
  }

  /** A placement field after the move: the vector given for it, or what it was. */
  ghost predicate FieldMoved(c: Command, key: Key, was: Triple, now: Triple) {
    if key in c.parameters then c.parameters[key] == Vector(now) else now == was
  }

  lemma MoveWrites(s: seq<Entity>, c: Command)
    requires c.operation.MoveObject? && Find(s, c.target).Some?
    ensures var e := Before(s, c);
            && (Apply(s, c).Ok? <==>
                  && !e.locks.transform && !e.locks.geometry
                  && forall k | k in {TranslationKey, RotationKey, ScaleKey} && k in c.parameters :: c.parameters[k].Vector?)
            && (Apply(s, c).Ok? ==>
                  && Now(s, c).Some? && Now(s, c).value == e.(transform := Now(s, c).value.transform)
                  && FieldMoved(c, TranslationKey, e.transform.translation, Now(s, c).value.transform.translation)
                  && FieldMoved(c, RotationKey, e.transform.rotation, Now(s, c).value.transform.rotation)
                  && FieldMoved(c, ScaleKey, e.transform.scale, Now(s, c).value.transform.scale))
            && (Apply(s, c).Err? ==>
                  Apply(s, c).error == if e.locks.transform || e.locks.geometry then Rejected else InvalidPayload)
  {
    EffectErrors(s, c);
    EditLands(s, c);
  }

  lemma RemoveWrites(s: seq<Entity>, c: Command)
    requires c.operation.RemoveObject? && Find(s, c.target).Some?
    ensures var e := Before(s, c);
            && (Apply(s, c).Ok? <==> !e.locks.existence && !e.locks.geometry && e.intent != Some(Keep))
            && (Apply(s, c).Ok? ==> Now(s, c).None?)
  {
    EditLands(s, c);
  }

  /** add_object appends the payload as it is, or as a design object if it names no state. */
  lemma AddWrites(s: seq<Entity>, c: Command)
    requires c.operation.AddObject?
    ensures var v := Get(c, EntityKey);
            && (Apply(s, c).Ok? <==> v.EntityDict? && v.entity.id == c.target && Find(s, c.target).None?)
            && (Apply(s, c).Ok? ==>
                  var added := v.entity.(state := if v.hasState then v.entity.state else Design);
                  Apply(s, c).value == s + [added] && Now(s, c) == Some(added))
            && (Apply(s, c) == Err(Conflict) <==> v.EntityDict? && v.entity.id == c.target && Find(s, c.target).Some?)
            && (Apply(s, c) == Err(InvalidPayload) <==> v.LockDict? || v.CommandDict? || v.OtherDict?)
  {
    if Apply(s, c).Ok? {
      FindAppended(s, Addition(c).value, c.target);
    }
  }

  // ---------------------------------------------------------------------
  // Locks
  // ---------------------------------------------------------------------

  predicate IsLock(key: LockKey) { !key.UnknownLock? }

  /** The flag of that name. */
  function Flag(locks: LockSet, key: LockKey): bool
    requires IsLock(key)
  {
    match key
    case GeometryLock => locks.geometry
    case TransformLock => locks.transform
    case MaterialLock => locks.material
    case ExistenceLock => locks.existence
  }

  predicate IsFlagItem(item: LockItem) { IsLock(item.key) && item.value.Boolean? }

  /** The flag is what the last item for its key says, or what it was if there is none. */
  ghost predicate FollowsItems(was: bool, now: bool, items: seq<LockItem>, key: LockKey) {
    && ((forall i | 0 <= i < |items| :: items[i].key != key) ==> now == was)
    && (forall i | 0 <= i < |items| && IsLast(items, i, key) :: items[i].value == Boolean(now))
  }

  ghost predicate IsLast(items: seq<LockItem>, i: nat, key: LockKey)
    requires i < |items|
  {
    items[i].key == key && forall j | i < j < |items| :: items[j].key != key
  }

  lemma {:induction false} MergeFollowsItems(locks: LockSet, items: seq<LockItem>)
    ensures MergeLocks(locks, items).Some? <==> forall i | 0 <= i < |items| :: IsFlagItem(items[i])
    ensures MergeLocks(locks, items).Some? ==>
              forall key | IsLock(key) :: FollowsItems(Flag(locks, key), Flag(MergeLocks(locks, items).value, key), items, key)
    decreases |items|
  {
    if items != [] {
      assert forall i | 0 < i < |items| :: items[i] == items[1..][i - 1];
      assert IsFlagItem(items[0]) <==> LocksAfter(locks, items[0]).Some?;
      if LocksAfter(locks, items[0]).Some? {
        var next := LocksAfter(locks, items[0]).value;
        MergeFollowsItems(next, items[1..]);
        assert forall i | 0 <= i < |items[1..]| :: IsFlagItem(items[1..][i]) <==> IsFlagItem(items[i + 1]);
        if MergeLocks(next, items[1..]).Some? {
          forall key | IsLock(key)
            ensures FollowsItems(Flag(locks, key), Flag(MergeLocks(locks, items).value, key), items, key)
          {
            FirstItem(locks, next, Flag(MergeLocks(next, items[1..]).value, key), items, key);
          }
        }
      }
    }
  }

  lemma FirstItem(locks: LockSet, next: LockSet, now: bool, items: seq<LockItem>, key: LockKey)
    requires items != [] && IsLock(key) && LocksAfter(locks, items[0]) == Some(next)
    requires FollowsItems(Flag(next, key), now, items[1..], key)
    ensures FollowsItems(Flag(locks, key), now, items, key)
  {
    var rest := items[1..];
    assert forall i | 0 <= i < |rest| :: rest[i] == items[i + 1];
    assert Flag(next, key) == if items[0].key == key then items[0].value.b else Flag(locks, key);
    forall i | 0 <= i < |items| && IsLast(items, i, key) ensures items[i].value == Boolean(now) {
      if i > 0 {
        assert IsLast(rest, i - 1, key);
      } else {
        assert forall j | 0 <= j < |rest| :: rest[j].key != key;
      }
    }
  }

  /** set_locks is refused iff the locks are no dict, name an unknown key or hold a value that is no
      boolean; otherwise each flag follows its own key, and nothing else changes. */
  lemma SetLocksWrites(s: seq<Entity>, c: Command)
    requires c.operation.SetLocks? && Find(s, c.target).Some?
    ensures var e, v := Before(s, c), Get(c, LocksKey);
            && (Apply(s, c).Ok? <==> v.LockDict? && forall i | 0 <= i < |v.items| :: IsFlagItem(v.items[i]))
            && (Apply(s, c).Ok? ==>
                  && Now(s, c).Some? && Now(s, c).value == e.(locks := Now(s, c).value.locks)
                  && forall key | IsLock(key) ::
                       FollowsItems(Flag(e.locks, key), Flag(Now(s, c).value.locks, key), v.items, key))
  {
    EditLands(s, c);
    var e, v := Before(s, c), Get(c, LocksKey);
    if IsDict(v) {
      MergeFollowsItems(e.locks, LockItems(v));
      if !v.LockDict? {
        assert !IsFlagItem(LockItems(v)[0]);
      }
    }
  }
}
