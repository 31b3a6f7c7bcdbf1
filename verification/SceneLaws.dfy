/** What every run of commands keeps, and which commands commute. */
module SceneLaws {
  import opened Wrappers
  import opened SceneModel

  // ---------------------------------------------------------------------
  // Splicing
  // ---------------------------------------------------------------------

  /** Nothing but the named entity changes. */
  lemma {:induction false} SpliceFrame(s: seq<Entity>, id: string, edit: Edit, other: string)
    requires other != id && (edit.Put? ==> edit.entity.id == id)
    ensures Find(Splice(s, id, edit), other) == Find(s, other)
  {
    if s != [] {
      SpliceFrame(s[1..], id, edit, other);
      var t := Splice(s, id, edit);
      if s[0].id != id {
        assert t[1..] == Splice(s[1..], id, edit);
      } else if edit.Put? {
        assert t[1..] == s[1..];
      }
    }
  }

  /** The named entity becomes what the edit says. */
  lemma {:induction false} SpliceHit(s: seq<Entity>, id: string, edit: Edit)
    requires edit.Put? ==> edit.entity.id == id && Find(s, id).Some?
    ensures Find(Splice(s, id, edit), id) == match edit case Put(e) => Some(e) case Drop => None
  {
    if s != [] {
      var t := Splice(s, id, edit);
      if s[0].id != id {
        SpliceHit(s[1..], id, edit);
        assert t[1..] == Splice(s[1..], id, edit);
      } else if edit.Drop? {
        SpliceHit(s[1..], id, edit);
      }
    }
  }

  lemma {:induction false} FindAppended(s: seq<Entity>, e: Entity, id: string)
    ensures Find(s + [e], id) == if Find(s, id).Some? then Find(s, id) else if e.id == id then Some(e) else None
  {
    if s == [] {
      assert s + [e] == [e];
    } else {
      assert (s + [e])[1..] == s[1..] + [e];
      FindAppended(s[1..], e, id);
    }
  }

  lemma {:induction false} SpliceAppended(s: seq<Entity>, e: Entity, id: string, edit: Edit)
    requires e.id != id
    ensures Splice(s + [e], id, edit) == Splice(s, id, edit) + [e]
  {
    if s == [] {
      assert s + [e] == [e];
      assert [e][1..] == [];
    } else {
      assert (s + [e])[1..] == s[1..] + [e];
      SpliceAppended(s[1..], e, id, edit);
    }
  }

  /** Edits of different entities commute, list order included. */
  lemma {:induction false} SplicesCommute(s: seq<Entity>, id: string, edit: Edit, id': string, edit': Edit)
    requires id != id'
    requires (edit.Put? ==> edit.entity.id == id) && (edit'.Put? ==> edit'.entity.id == id')
    ensures Splice(Splice(s, id, edit), id', edit') == Splice(Splice(s, id', edit'), id, edit)
  {
    if s != [] {
      SplicesCommute(s[1..], id, edit, id', edit');
      SpliceHead(s, id, edit);
      SpliceHead(s, id', edit');
      var a, b := Splice(s, id, edit), Splice(s, id', edit');
      if s[0].id == id && edit.Put? {
        SpliceHead(a, id', edit');
        SpliceHead(b, id, edit);
      } else if s[0].id == id' && edit'.Put? {
        SpliceHead(a, id', edit');
        SpliceHead(b, id, edit);
      } else if s[0].id != id && s[0].id != id' {
        SpliceHead(a, id', edit');
        SpliceHead(b, id, edit);
      } else if s[0].id == id {
        SpliceHead(b, id, edit);
      } else {
        SpliceHead(a, id', edit');
      }
    }
  }

  lemma SpliceHead(s: seq<Entity>, id: string, edit: Edit)
    requires s != []
    ensures s[0].id != id ==> Splice(s, id, edit) == [s[0]] + Splice(s[1..], id, edit)
    ensures s[0].id != id ==> Splice(s, id, edit)[1..] == Splice(s[1..], id, edit)
    ensures s[0].id == id && edit.Put? ==> Splice(s, id, edit) == [edit.entity] + s[1..] && Splice(s, id, edit)[1..] == s[1..]
    ensures s[0].id == id && edit.Drop? ==> Splice(s, id, edit) == Splice(s[1..], id, edit)
  {
  }

  // ---------------------------------------------------------------------
  // Footprints
  // ---------------------------------------------------------------------

  /** The ids a command can read or write. */
  function Footprint(c: Command): set<string> {
    {c.target} + (if c.operation.AcceptConfirmedDeviation? && Embedded(c).Ok? then {Embedded(c).value.target} else {})
  }

  /** The change a command makes once any envelope is opened. */
  function Plain(c: Command): (p: Command)
    ensures p.operation.AcceptConfirmedDeviation? <==> c.operation.AcceptConfirmedDeviation? && Embedded(c).Err?
  {
    if c.operation.AcceptConfirmedDeviation? && Embedded(c).Ok? then Embedded(c).value else c
  }

  /** A command's effect on the list: append, or splice at an id. */
  datatype ListOp = Append(entity: Entity) | At(id: string, edit: Edit)

  function Perform(s: seq<Entity>, op: ListOp): seq<Entity> {
    match op
    case Append(e) => s + [e]
    case At(id, edit) => Splice(s, id, edit)
  }

  function OpId(op: ListOp): string {
    match op
    case Append(e) => e.id
    case At(id, _) => id
  }

  ghost predicate WellTargeted(op: ListOp) {
    op.At? && op.edit.Put? ==> op.edit.entity.id == op.id
  }

  /** What an accepted command does to the list. */
  function OpOf(s: seq<Entity>, c: Command): (op: ListOp)
    requires Apply(s, c).Ok?
    ensures WellTargeted(op) && OpId(op) == Plain(c).target && OpId(op) in Footprint(c)
    ensures Apply(s, c) == Ok(Perform(s, op))
    ensures op.Append? <==> Plain(c).operation.AddObject?
  {
    var p := Plain(c);
    assert Apply(s, p) == Apply(s, c);
    if p.operation.AddObject? then Append(Addition(p).value)
    else At(p.target, Effect(Find(s, p.target).value, p).value)
  }

  /** Two scenes that agree on a command's footprint accept it alike, with the same effect. */
  lemma FootprintDecides(s: seq<Entity>, s': seq<Entity>, c: Command)
    requires forall id | id in Footprint(c) :: Find(s, id) == Find(s', id)
    ensures Apply(s, c).Ok? <==> Apply(s', c).Ok?
    ensures Apply(s, c).Err? ==> Apply(s', c) == Err(Apply(s, c).error)
    ensures Apply(s, c).Ok? ==> OpOf(s, c) == OpOf(s', c)
  {
    assert c.target in Footprint(c);
    assert Plain(c).target in Footprint(c);
  }

  /** An accepted command leaves every entity outside its footprint alone. */
  lemma ApplyFrame(s: seq<Entity>, c: Command, other: string)
    requires Apply(s, c).Ok? && other !in Footprint(c)
    ensures Find(Apply(s, c).value, other) == Find(s, other)
  {
    match OpOf(s, c)
    case Append(e) => FindAppended(s, e, other);
    case At(id, edit) => SpliceFrame(s, id, edit, other);
  }

  lemma PerformsCommute(s: seq<Entity>, a: ListOp, b: ListOp)
    requires OpId(a) != OpId(b) && WellTargeted(a) && WellTargeted(b)
    ensures !(a.Append? && b.Append?) ==> Perform(Perform(s, a), b) == Perform(Perform(s, b), a)
    ensures multiset(Perform(Perform(s, a), b)) == multiset(Perform(Perform(s, b), a))
  {
    match (a, b)
    case (Append(e), Append(e')) =>
    case (Append(e), At(id, edit)) => SpliceAppended(s, e, id, edit);
    case (At(id, edit), Append(e)) => SpliceAppended(s, e, id, edit);
    case (At(id, edit), At(id', edit')) => SplicesCommute(s, id, edit, id', edit');
  }

  /** Commands with disjoint footprints commute: either order accepts both or neither,
      and the scenes agree, up to list order when both add an entity. */
  lemma DisjointCommandsCommute(s: seq<Entity>, a: Command, b: Command)
    requires Footprint(a) !! Footprint(b)
    ensures Apply(s, a).Ok? ==>
              && (Apply(Apply(s, a).value, b).Ok? <==> Apply(s, b).Ok?)
              && (Apply(s, b).Err? ==> Apply(Apply(s, a).value, b) == Err(Apply(s, b).error))
    ensures Apply(s, b).Ok? ==> (Apply(Apply(s, b).value, a).Ok? <==> Apply(s, a).Ok?)
    ensures Apply(s, a).Ok? && Apply(s, b).Ok? ==>
              var ab, ba := Apply(Apply(s, a).value, b).value, Apply(Apply(s, b).value, a).value;
              && (!(Plain(a).operation.AddObject? && Plain(b).operation.AddObject?) ==> ab == ba)
              && multiset(ab) == multiset(ba)
  {
    if Apply(s, a).Ok? {
      forall id | id in Footprint(b) ensures Find(s, id) == Find(Apply(s, a).value, id) {
        ApplyFrame(s, a, id);
      }
      FootprintDecides(s, Apply(s, a).value, b);
    }
    if Apply(s, b).Ok? {
      forall id | id in Footprint(a) ensures Find(s, id) == Find(Apply(s, b).value, id) {
        ApplyFrame(s, b, id);
      }
      FootprintDecides(s, Apply(s, b).value, a);
    }
    if Apply(s, a).Ok? && Apply(s, b).Ok? {
      PerformsCommute(s, OpOf(s, a), OpOf(s, b));
    }
  }

  // ---------------------------------------------------------------------
  // Unique ids
  // ---------------------------------------------------------------------

  ghost predicate UniqueIds(s: seq<Entity>) {
    forall i, j | 0 <= i < j < |s| :: s[i].id != s[j].id
  }

  lemma {:induction false} SpliceIds(s: seq<Entity>, id: string, edit: Edit)
    requires UniqueIds(s) && (edit.Put? ==> edit.entity.id == id)
    ensures UniqueIds(Splice(s, id, edit))
  {
    if s != [] {
      assert forall i | 1 <= i < |s| :: s[i] == s[1..][i - 1];
      SpliceIds(s[1..], id, edit);
      SpliceHead(s, id, edit);
      var t, rest := Splice(s, id, edit), Splice(s[1..], id, edit);
      if s[0].id != id {
        forall j | 1 <= j < |t| ensures t[0].id != t[j].id {
          assert t[j] == rest[j - 1];
          SpliceFrame(s[1..], id, edit, s[0].id);
          assert Find(rest, s[0].id).None?;
        }
        assert forall i | 1 <= i < |t| :: t[i] == rest[i - 1];
      }
    }
  }

  /** Every accepted command keeps the entity ids pairwise distinct. */
  lemma ApplyKeepsUniqueIds(s: seq<Entity>, c: Command)
    requires UniqueIds(s) && Apply(s, c).Ok?
    ensures UniqueIds(Apply(s, c).value)
  {
    match OpOf(s, c)
    case Append(e) => assert Find(s, e.id).None?;
    case At(id, edit) => SpliceIds(s, id, edit);
  }

  lemma {:induction false} RunKeepsUniqueIds(s: seq<Entity>, commands: seq<Command>)
    requires UniqueIds(s)
    ensures UniqueIds(Run(s, commands))
    decreases |commands|
  {
    if commands != [] {
      if Apply(s, commands[0]).Ok? {
        ApplyKeepsUniqueIds(s, commands[0]);
      }
      RunKeepsUniqueIds(ApplyOrKeep(s, commands[0]), commands[1..]);
    }
  }

  /** A run applies its commands one after the other; a rejected one changes nothing. */
  lemma RunStep(s: seq<Entity>, c: Command, rest: seq<Command>)
    ensures Run(s, []) == s
    ensures Run(s, [c] + rest) == Run(if Apply(s, c).Ok? then Apply(s, c).value else s, rest)
  {
    assert ([c] + rest)[1..] == rest;
  }

  // ---------------------------------------------------------------------
  // State and intent
  // ---------------------------------------------------------------------

  /** Construction shell is neither removed nor replaced. */
  predicate Compatible(e: Entity) {
    e.state == Structure ==> e.intent !in {Some(Remove), Some(Replace)}
  }

  ghost predicate AllCompatible(s: seq<Entity>) {
    forall i | 0 <= i < |s| :: Compatible(s[i])
  }

  /** The payload a command would add, if any, is compatible. */
  predicate AddsCompatible(c: Command) {
    var p := Plain(c);
    p.operation.AddObject? && Addition(p).Ok? ==> Compatible(Addition(p).value)
  }

  lemma {:induction false} SpliceCompatible(s: seq<Entity>, id: string, edit: Edit)
    requires AllCompatible(s) && (edit.Put? ==> Compatible(edit.entity))
    ensures AllCompatible(Splice(s, id, edit))
  {
    if s != [] {
      assert forall i | 1 <= i < |s| :: s[i] == s[1..][i - 1];
      SpliceCompatible(s[1..], id, edit);
      SpliceHead(s, id, edit);
    }
  }

  /** Every guard of the edits together preserves compatibility. */
  lemma EffectKeepsCompatible(e: Entity, c: Command)
    requires !c.operation.AddObject? && !c.operation.AcceptConfirmedDeviation?
    requires Compatible(e) && Effect(e, c).Ok? && Effect(e, c).value.Put?
    ensures Compatible(Effect(e, c).value.entity)
  {
  }

  /** An accepted command keeps a compatible scene compatible iff what it adds is. */
  lemma ApplyKeepsCompatible(s: seq<Entity>, c: Command)
    requires AllCompatible(s) && Apply(s, c).Ok?
    ensures AllCompatible(Apply(s, c).value) <==> AddsCompatible(c)
  {
    match OpOf(s, c) {
      case Append(e) =>
        assert (s + [e])[|s|] == e;
      case At(id, edit) =>
        var target := Find(s, id).value;
        assert target in s;
        if edit.Put? {
          EffectKeepsCompatible(target, Plain(c));
        }
        SpliceCompatible(s, id, edit);
    }
  }

  lemma {:induction false} RunKeepsCompatible(s: seq<Entity>, commands: seq<Command>)
    requires AllCompatible(s) && forall i | 0 <= i < |commands| :: AddsCompatible(commands[i])
    ensures AllCompatible(Run(s, commands))
    decreases |commands|
  {
    if commands != [] {
      if Apply(s, commands[0]).Ok? {
        ApplyKeepsCompatible(s, commands[0]);
      }
      RunKeepsCompatible(ApplyOrKeep(s, commands[0]), commands[1..]);
    }
  }

  /** An old client's payload names no state, becomes a design object, and is always compatible. */
  lemma StatelessAdditionsCompatible(c: Command)
    requires c.operation.AddObject? && Get(c, EntityKey).EntityDict? && !Get(c, EntityKey).hasState
    ensures AddsCompatible(c)
  {
  }

  // ---------------------------------------------------------------------
  // The accept envelope
  // ---------------------------------------------------------------------

  /** On an existing wrapper target, with a deviation id and a well-formed non-accept change,
      the envelope is exactly its change; in every other case it is rejected. */
  lemma AcceptIsItsChange(s: seq<Entity>, c: Command)
    requires c.operation.AcceptConfirmedDeviation?
    ensures Find(s, c.target).Some? && Embedded(c).Ok? ==> Apply(s, c) == Apply(s, Embedded(c).value)
    ensures Find(s, c.target).None? || Embedded(c).Err? ==> Apply(s, c).Err?
    ensures Embedded(c).Ok? <==>
              && IsNonEmptyText(Get(c, DeviationKey)) && Get(c, ChangeKey).CommandDict?
              && !Get(c, ChangeKey).command.operation.AcceptConfirmedDeviation?
  {
  }

  /** An envelope whose change removes its own wrapper target cannot be accepted twice. */
  lemma AcceptedRemovalIsFinal(s: seq<Entity>, c: Command)
    requires c.operation.AcceptConfirmedDeviation? && Apply(s, c).Ok?
    requires Embedded(c).value.operation.RemoveObject? && Embedded(c).value.target == c.target
    ensures Apply(Apply(s, c).value, c) == Err(UnknownTarget)
  {
    SpliceHit(s, c.target, Drop);
  }
}
