/** The gAI submission's level data and the scene the EngineService keeps
    for it (services/EngineService.ts).

    A level is a list of entities, each a list of components. The shapes are
    the ones the service reads: a Mesh component has a `shape`, a `visible`
    flag and a colour; a Physics component has `isStatic`, `useGravity` and
    a velocity; a Region component has a priority, a size, a blend mode and
    modifiers with an optional gravity scale and an optional tint. Lights and
    logic components are read by nothing here.

    The scene is the service's `entityNodeMap` from entity id to scene node,
    its material cache (one material per colour, named by the colour), and
    the entity whose camera is the scene's active camera. `syncLevel`
    reconciles the map with a level: every entity gets a node, created on
    first sight and then updated, and nodes whose entity is gone are
    dropped. */
module GaiScene {
  import opened Wrappers
  import opened Vectors

  /** `RegionBlendMode`; `BlendOther` is any other value, which changes
      nothing. */
  datatype Blend = BlendOverride | BlendMultiply | BlendAdd | BlendOther

  datatype ComponentType = TransformType | MeshType | CameraType | PhysicsType | RegionType | OtherType

  datatype GComponent =
    | GTransform(position: Vec3, rotation: Vec3, scale: Vec3)
    | GMesh(shape: string, visible: bool, color: string)
    | GCamera
    | GPhysics(isStatic: Option<bool>, useGravity: bool, velocity: Vec3)
    | GRegion(priority: real, size: Vec3, blendMode: Blend, gravityScale: Option<real>, colorTint: Option<string>)
    | GOther
  {
    function Type(): ComponentType {
      match this
      case GTransform(_, _, _) => TransformType
      case GMesh(_, _, _) => MeshType
      case GCamera => CameraType
      case GPhysics(_, _, _) => PhysicsType
      case GRegion(_, _, _, _, _) => RegionType
      case GOther => OtherType
    }
  }

  datatype GEntity = GEntity(id: string, name: string, components: seq<GComponent>)

  /** A level: its entities and its environment's gravity. */
  datatype GLevel = GLevel(id: string, entities: seq<GEntity>, gravity: Vec3)

  /** `components.find(c => c.type === t)`. */
  function Find(cs: seq<GComponent>, t: ComponentType): Option<GComponent> {
    if cs == [] then None
    else if cs[0].Type() == t then Some(cs[0])
    else Find(cs[1..], t)
  }

  /** `physics?.isStatic ?? true`: no Physics component, or one whose
      `isStatic` is not set, reads as static. */
  predicate IsStatic(e: GEntity) {
    match Find(e.components, PhysicsType)
    case Some(GPhysics(s, _, _)) => s.None? || s.value
    case _ => true
  }

  /** `phys && !phys.isStatic`: the game loop steps the entity; a Physics
      component whose `isStatic` is not set counts as dynamic here. */
  predicate Moves(e: GEntity) {
    match Find(e.components, PhysicsType)
    case Some(GPhysics(s, _, _)) => s.None? || !s.value
    case _ => false
  }

  /** The three kinds of node the service creates. */
  datatype NodeKind = MeshNode | PlainNode | CameraNode

  /** A scene node: its kind, its transform (a camera has no scaling), and
      what the service sets on meshes: visibility, pickability, material
      (by colour) and the tint overlay. */
  datatype GNode = GNode(
    kind: NodeKind, position: Vec3, rotation: Vec3, scaling: Option<Vec3>,
    visible: bool, visibility: real, pickable: bool, material: Option<string>,
    overlay: bool, overlayColor: Option<string>)

  /** The scene: the node map, the colours with a cached material, and the
      entity whose camera is active. */
  datatype Scene = Scene(nodes: map<string, GNode>, materials: set<string>, camera: Option<string>)

  /** The kind of node created for an entity: a mesh for a Mesh component
      of a known shape, a plain transform node for any other shape, a camera
      for a Camera component without a Mesh, and a plain node otherwise. */
  function KindFor(e: GEntity): NodeKind {
    match Find(e.components, MeshType)
    case Some(GMesh(shape, _, _)) =>
      if shape == "box" || shape == "sphere" || shape == "plane" then MeshNode else PlainNode
    case _ => if Find(e.components, CameraType).Some? then CameraNode else PlainNode
  }

  /** A node as created: at the origin, unrotated, unit scale but for a
      camera, visible, opaque, pickable, with no material and no overlay. */
  function NewNode(kind: NodeKind): GNode {
    GNode(kind, Zero, Zero, if kind == CameraNode then None else Some(One), true, 1.0, true, None, false, None)
  }

  /** The transform step of `syncEntity`: when not playing, or for a static
      entity, the Transform component's position and rotation are written,
      and its scale too unless the node is a camera. */
  function Place(n: GNode, e: GEntity, playing: bool): GNode {
    if !playing || IsStatic(e) then
      match Find(e.components, TransformType)
      case Some(GTransform(p, r, s)) => n.(position := p, rotation := r, scaling := if n.kind == CameraNode then n.scaling else Some(s))
      case _ => n
    else n
  }

  /** The mesh step of `syncEntity`, for a Mesh component on a mesh node:
      visibility from the component, a region drawn at its size, see-through
      and not pickable, and the material of the component's colour. */
  function Dress(n: GNode, e: GEntity): GNode {
    match Find(e.components, MeshType)
    case Some(GMesh(_, vis, color)) =>
      if n.kind != MeshNode then n
      else
        var n1 := n.(visible := vis, visibility := 1.0);
        var n2 := match Find(e.components, RegionType)
          case Some(GRegion(_, size, _, _, _)) => n1.(scaling := Some(size), visibility := 0.2, pickable := false)
          case _ => n1;
        n2.(material := Some(color))
    case _ => n
  }

  /** The colour whose material `Dress` uses, if it uses one. */
  function MaterialUsed(n: GNode, e: GEntity): Option<string> {
    match Find(e.components, MeshType)
    case Some(GMesh(_, _, color)) => if n.kind == MeshNode then Some(color) else None
    case _ => None
  }

  /** `syncEntity(e)`. */
  function SyncEntityOn(s: Scene, e: GEntity, playing: bool): Scene {
    var n0 := if e.id in s.nodes then s.nodes[e.id] else NewNode(KindFor(e));
    var cam := if e.id !in s.nodes && KindFor(e) == CameraNode then Some(e.id) else s.camera;
    var mats := match MaterialUsed(n0, e) case Some(c) => s.materials + {c} case None => s.materials;
    Scene(s.nodes[e.id := Dress(Place(n0, e, playing), e)], mats, cam)
  }

  /** `syncEntity` on the first `n` entities of `es`, in order. */
  function SyncAll(s: Scene, es: seq<GEntity>, playing: bool): Scene {
    if es == [] then s
    else SyncEntityOn(SyncAll(s, es[..|es| - 1], playing), es[|es| - 1], playing)
  }

  /** The ids of `es`: `processedIds`. */
  function Ids(es: seq<GEntity>): set<string> {
    if es == [] then {} else Ids(es[..|es| - 1]) + {es[|es| - 1].id}
  }

  /** The cleanup pass: only the nodes of processed ids stay. */
  function Cleanup(nodes: map<string, GNode>, keep: set<string>): map<string, GNode> {
    map id | id in nodes && id in keep :: nodes[id]
  }

  /** `syncLevel(level, playing)` on the scene. */
  function SyncLevelOn(s: Scene, level: GLevel, playing: bool): Scene {
    var synced := SyncAll(s, level.entities, playing);
    synced.(nodes := Cleanup(synced.nodes, Ids(level.entities)))
  }

  /** Every node's material is cached. */
  ghost predicate MaterialsCached(s: Scene) {
    forall id | id in s.nodes && s.nodes[id].material.Some? :: s.nodes[id].material.value in s.materials
  }

  /** The index of the first entity of `es` with the id `id`. */
  function FirstIndex(es: seq<GEntity>, id: string): (i: nat)
    requires id in Ids(es)
    ensures i < |es| && es[i].id == id
  {
    if id in Ids(es[..|es| - 1]) then FirstIndex(es[..|es| - 1], id) else |es| - 1
  }

  // ---- Properties of the reconciliation ----

  lemma {:induction false} IdsExactly(es: seq<GEntity>)
    ensures forall id :: id in Ids(es) <==> exists i | 0 <= i < |es| :: es[i].id == id
  {
    if es != [] {
      var init := es[..|es| - 1];
      IdsExactly(init);
      forall id | id in Ids(es)
        ensures exists i | 0 <= i < |es| :: es[i].id == id
      {
        if id in Ids(init) {
          var i :| 0 <= i < |init| && init[i].id == id;
          assert es[i] == init[i];
        } else {
          assert es[|es| - 1].id == id;
        }
      }
      forall id, i | 0 <= i < |es| && es[i].id == id
        ensures id in Ids(es)
      {
        if i < |init| {
          assert init[i] == es[i];
        }
      }
    }
  }

  /** Syncing entities adds their ids to the map and removes none. */
  lemma {:induction false} SyncAllKeys(s: Scene, es: seq<GEntity>, playing: bool)
    ensures SyncAll(s, es, playing).nodes.Keys == s.nodes.Keys + Ids(es)
  {
    if es != [] {
      SyncAllKeys(s, es[..|es| - 1], playing);
    }
  }

  /** After `syncLevel` the map holds a node for exactly the level's
      entities. */
  lemma SyncLevelKeys(s: Scene, level: GLevel, playing: bool)
    ensures SyncLevelOn(s, level, playing).nodes.Keys == Ids(level.entities)
  {
    SyncAllKeys(s, level.entities, playing);
  }

  /** One `syncEntity`: the entity's id gets a node, created with the
      entity's kind if it had none, and every other node keeps its kind. */
  lemma SyncEntityKinds(s: Scene, e: GEntity, playing: bool)
    ensures var r := SyncEntityOn(s, e, playing);
      && r.nodes.Keys == s.nodes.Keys + {e.id}
      && (forall id | id in s.nodes :: r.nodes[id].kind == s.nodes[id].kind)
      && (e.id !in s.nodes ==> r.nodes[e.id].kind == KindFor(e))
  {
  }

  /** A node keeps the kind it was created with: an existing node keeps its
      kind ... */
  lemma {:induction false} SyncAllKeepsKinds(s: Scene, es: seq<GEntity>, playing: bool)
    ensures forall id | id in s.nodes :: id in SyncAll(s, es, playing).nodes && SyncAll(s, es, playing).nodes[id].kind == s.nodes[id].kind
  {
    if es != [] {
      SyncAllKeepsKinds(s, es[..|es| - 1], playing);
      SyncEntityKinds(SyncAll(s, es[..|es| - 1], playing), es[|es| - 1], playing);
    }
  }

  /** ... and a new one has the kind of the first entity with its id. */
  lemma {:induction false} SyncAllNewKinds(s: Scene, es: seq<GEntity>, playing: bool)
    ensures forall id | id in Ids(es) && id !in s.nodes ::
      id in SyncAll(s, es, playing).nodes && SyncAll(s, es, playing).nodes[id].kind == KindFor(es[FirstIndex(es, id)])
  {
    if es != [] {
      var init := es[..|es| - 1];
      var e := es[|es| - 1];
      var prev := SyncAll(s, init, playing);
      SyncAllNewKinds(s, init, playing);
      SyncAllKeys(s, init, playing);
      SyncEntityKinds(prev, e, playing);
      forall id | id in Ids(es) && id !in s.nodes
        ensures id in SyncAll(s, es, playing).nodes && SyncAll(s, es, playing).nodes[id].kind == KindFor(es[FirstIndex(es, id)])
      {
        if id in Ids(init) {
          assert FirstIndex(es, id) == FirstIndex(init, id);
          assert es[FirstIndex(init, id)] == init[FirstIndex(init, id)];
          assert id in prev.nodes;
        } else {
          assert id == e.id && id !in prev.nodes;
        }
      }
    }
  }

  /** In the editor, the last entity with an id decides its node's
      transform: if it has a Transform component, the node stands at its
      position with its rotation. */
  lemma {:induction false} EditorShowsTransforms(s: Scene, es: seq<GEntity>)
    ensures forall i | 0 <= i < |es| && (forall j | i < j < |es| :: es[j].id != es[i].id) ::
      match Find(es[i].components, TransformType)
      case Some(GTransform(p, r, _)) =>
        es[i].id in SyncAll(s, es, false).nodes
        && SyncAll(s, es, false).nodes[es[i].id].position == p && SyncAll(s, es, false).nodes[es[i].id].rotation == r
      case _ => true
  {
    if es != [] {
      var init := es[..|es| - 1];
      EditorShowsTransforms(s, init);
      forall i | 0 <= i < |es| - 1 && (forall j | i < j < |es| :: es[j].id != es[i].id)
        ensures forall j | i < j < |init| :: init[j].id != init[i].id
      {
      }
    }
  }

  /** While playing, the service leaves the transform of an entity the game
      loop steps to the loop, as long as its `isStatic` is set. */
  lemma PlayingSyncLeavesMovingNodes(s: Scene, e: GEntity)
    requires Moves(e) && e.id in s.nodes
    requires match Find(e.components, PhysicsType) case Some(GPhysics(st, _, _)) => st.Some? case _ => false
    ensures var n := SyncEntityOn(s, e, true).nodes[e.id];
      n.position == s.nodes[e.id].position && n.rotation == s.nodes[e.id].rotation
  {
    assert !IsStatic(e);
    assert Place(s.nodes[e.id], e, true) == s.nodes[e.id];
  }

  /** When a Physics component's `isStatic` is not set, the entity counts
      as static for the sync and as dynamic for the game loop: a sync while
      playing writes the Transform position over the node the loop moves. */
  lemma UnsetIsStaticIsStaticAndMoving(s: Scene, id: string, p: Vec3, r: Vec3, sc: Vec3, v: Vec3)
    requires id in s.nodes
    ensures var e := GEntity(id, "", [GTransform(p, r, sc), GPhysics(None, true, v)]);
      && Moves(e) && IsStatic(e)
      && SyncEntityOn(s, e, true).nodes[id].position == p
  {
    var e := GEntity(id, "", [GTransform(p, r, sc), GPhysics(None, true, v)]);
    assert Find(e.components, TransformType) == Some(GTransform(p, r, sc));
    assert e.components[1..] == [GPhysics(None, true, v)];
    assert Find(e.components, PhysicsType) == Some(GPhysics(None, true, v));
  }

  /** Every material a node uses stays cached. */
  lemma {:induction false} SyncAllKeepsMaterialsCached(s: Scene, es: seq<GEntity>, playing: bool)
    requires MaterialsCached(s)
    ensures MaterialsCached(SyncAll(s, es, playing))
    ensures s.materials <= SyncAll(s, es, playing).materials
  {
    if es != [] {
      SyncAllKeepsMaterialsCached(s, es[..|es| - 1], playing);
    }
  }
}
