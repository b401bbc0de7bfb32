/** The zAI submission's project data (the shape assets/js/defaultProject.js
    shows) and its runtime levels.

    A project is a list of level records, a level record a list of entity
    records, and an entity record has a type, a lifecycle state and a list of
    components, each a type with its props. The core reads five component
    types. The others, such as the mesh renderer's shape, colour and texture,
    only feed the renderer and are not part of this model.

    A runtime entity (assets/js/entity.js) does not copy its record: its
    `data` IS the project's record, so writes to `data.state` are writes to
    the project. The model keeps that sharing: a runtime entity stores where
    its record lives (`slot`), and its data is read from the project.
    Around the record it holds its effective properties and the position of
    its scene node, if it has one. */
module ZaiData {
  import opened Wrappers
  import opened Vectors
  import opened SeqUtil

  const ObjectType: string := "object"
  const RegionType: string := "region"
  const InstanceType: string := "instance"
  const ActiveState: string := "active"
  const DestroyedState: string := "destroyed"

  /** One entry of a PropertyOverride's `overrides`. */
  datatype Override = Override(key: string, value: real, mode: string)

  datatype ComponentType = TransformType | RegionVolumeType | PropertyOverrideType | ScriptType | MovementType

  datatype ZComponent =
    | Transform(position: Vec3)
    | RegionVolume(priority: Option<real>)
    | PropertyOverride(overrides: seq<Override>)
    | Script(source: string)
    | Movement(speed: real)
  {
    function Type(): ComponentType {
      match this
      case Transform(_) => TransformType
      case RegionVolume(_) => RegionVolumeType
      case PropertyOverride(_) => PropertyOverrideType
      case Script(_) => ScriptType
      case Movement(_) => MovementType
    }
  }

  datatype EntityData = EntityData(id: string, etype: string, name: string, state: string, components: seq<ZComponent>)

  datatype LevelData = LevelData(id: string, name: string, entities: seq<EntityData>)

  datatype Project = Project(levels: seq<LevelData>)

  /** `getComponent(type)`: `components.find(c => c.type === type)`. */
  function GetComponent(cs: seq<ZComponent>, t: ComponentType): Option<ZComponent> {
    if cs == [] then None
    else if cs[0].Type() == t then Some(cs[0])
    else GetComponent(cs[1..], t)
  }

  /** `find` returns the first component of the type, and nothing exactly
      when there is none. */
  lemma {:induction false} GetComponentFindsFirst(cs: seq<ZComponent>, t: ComponentType)
    ensures GetComponent(cs, t).None? <==> forall i | 0 <= i < |cs| :: cs[i].Type() != t
    ensures GetComponent(cs, t).Some? ==>
      exists i | 0 <= i < |cs| :: cs[i] == GetComponent(cs, t).value && cs[i].Type() == t
        && forall j | 0 <= j < i :: cs[j].Type() != t
  {
    if cs != [] && cs[0].Type() != t {
      GetComponentFindsFirst(cs[1..], t);
      if GetComponent(cs, t).Some? {
        var i :| 0 <= i < |cs[1..]| && cs[1..][i] == GetComponent(cs, t).value && cs[1..][i].Type() == t
          && forall j | 0 <= j < i :: cs[1..][j].Type() != t;
        assert cs[i + 1] == cs[1..][i];
        forall j | 0 <= j < i + 1 ensures cs[j].Type() != t {
          if j > 0 {
            assert cs[j] == cs[1..][j - 1];
          }
        }
      } else {
        forall i | 0 <= i < |cs| ensures cs[i].Type() != t {
          if i > 0 {
            assert cs[i] == cs[1..][i - 1];
          }
        }
      }
    }
  }

  /** `getComponent("RegionVolume")?.props.priority || 0`: a missing volume,
      a missing priority and a priority of 0 all read as 0. */
  function Priority(e: EntityData): real {
    match GetComponent(e.components, RegionVolumeType)
    case Some(RegionVolume(Some(p))) => p
    case _ => 0.0
  }

  /** A runtime entity: where its record is in its level record, its
      `effectiveProperties`, and its scene node's position (`None` for a
      type that gets no node). */
  datatype ZEntity = ZEntity(slot: nat, effective: map<string, real>, node: Option<Vec3>)

  /** A runtime level: where its record is in the project, and its
      `entities` Map, as the ids in insertion order and the entity per id. */
  datatype ZLevel = ZLevel(slot: nat, ids: seq<string>, entities: map<string, ZEntity>)

  /** The Map's ids are distinct and are exactly its keys. */
  ghost predicate WellFormed(lv: ZLevel) {
    && Distinct(lv.ids)
    && (forall id :: id in lv.entities <==> id in lv.ids)
  }

  /** Every record a level's entities point at exists in the project. */
  ghost predicate Wired(p: Project, lv: ZLevel) {
    && lv.slot < |p.levels|
    && forall id | id in lv.entities :: lv.entities[id].slot < |p.levels[lv.slot].entities|
  }

  /** The record of the entity `id` of `lv`. An id the level does not hold
      reads as a record no system selects: no type, no state, no components. */
  function Record(p: Project, lv: ZLevel, id: string): EntityData {
    if id in lv.entities && lv.slot < |p.levels| && lv.entities[id].slot < |p.levels[lv.slot].entities|
    then p.levels[lv.slot].entities[lv.entities[id].slot]
    else EntityData(id, "", "", "", [])
  }

  /** What a system sees of one entity: its id, its record and its node. */
  datatype View = View(id: string, data: EntityData, node: Option<Vec3>)

  function ViewOf(p: Project, lv: ZLevel, id: string): View {
    View(id, Record(p, lv, id), if id in lv.entities then lv.entities[id].node else None)
  }

  /** `Array.from(level.entities.values())`. */
  function Views(p: Project, lv: ZLevel): (r: seq<View>)
    ensures |r| == |lv.ids|
    ensures forall i | 0 <= i < |r| :: r[i] == ViewOf(p, lv, lv.ids[i])
  {
    seq(|lv.ids|, i requires 0 <= i < |lv.ids| => ViewOf(p, lv, lv.ids[i]))
  }
}
