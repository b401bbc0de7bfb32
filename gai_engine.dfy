/** The gAI submission's EngineService (services/EngineService.ts): the
    bridge between the level data the editor holds and the scene.

    The service keeps the node map, the material cache, the active camera,
    the play flag and the level last synced. `syncLevel` records the flag
    and the level and reconciles the node map with it; every rendered frame
    runs `runGameLoop` while playing. The loop writes the new velocities
    into the synced level's Physics components, so the service's level
    changes with it. The frame's elapsed time is the parameter `dt`, and the
    bounding-box test of the regions the parameter `inside`. */
module GaiEngine {
  import opened Wrappers
  import opened Vectors
  import opened SeqUtil
  import opened GaiScene
  import opened GaiLoop
  import opened PrioritySort

  /** The regions of `es`, gathered in the level's order. */
  method GatherRegions(es: seq<GEntity>, nodes: map<string, GNode>) returns (rs: seq<RegionRef>)
    ensures rs == Gather(es, nodes)
  {
    rs := [];
    var i := 0;
    while i < |es|
      invariant 0 <= i <= |es|
      invariant rs == Gather(es[..i], nodes)
    {
      var ent := es[i];
      var reg := Find(ent.components, RegionType);
      if reg.Some? && reg.value.GRegion? && ent.id in nodes && nodes[ent.id].kind == MeshNode {
        rs := rs + [RegionRef(reg.value.priority, reg.value.blendMode, reg.value.gravityScale, reg.value.colorTint, nodes[ent.id])];
      }
      assert es[..i + 1][..i] == es[..i];
      i := i + 1;
    }
    assert es[..i] == es;
  }

  /** The region resolution for a node at `pos`: the gravity scale from 1
      and the tint, over the regions in order. */
  method ResolveAt(rs: seq<RegionRef>, pos: Vec3, inside: Inside) returns (scale: real, tint: Option<string>)
    ensures scale == GravityScale(1.0, rs, pos, inside)
    ensures tint == Tint(None, rs, pos, inside)
  {
    scale := 1.0;
    tint := None;
    var i := 0;
    while i < |rs|
      invariant 0 <= i <= |rs|
      invariant scale == GravityScale(1.0, rs[..i], pos, inside)
      invariant tint == Tint(None, rs[..i], pos, inside)
    {
      var region := rs[i];
      if inside(region.bounds, pos) {
        if region.gravityScale.Some? {
          if region.blend == BlendOverride {
            scale := region.gravityScale.value;
          } else if region.blend == BlendMultiply {
            scale := scale * region.gravityScale.value;
          } else if region.blend == BlendAdd {
            scale := scale + region.gravityScale.value;
          }
        }
        if region.tint.Some? && region.tint.value != "" {
          tint := region.tint;
        }
      }
      assert rs[..i + 1][..i] == rs[..i];
      i := i + 1;
    }
    assert rs[..i] == rs;
  }

  /** The physics step of one node: gravity into the y velocity, the
      position by the velocity, then the floor. */
  method Advance(pos: Vec3, vel: Vec3, useGravity: bool, gy: real, scale: real, dt: real) returns (m: Motion)
    ensures m == Integrate(pos, vel, useGravity, gy, scale, dt)
  {
    var vy := vel.y;
    if useGravity {
      vy := vel.y + gy * scale * dt;
    }
    var p := Vec3(pos.x + vel.x * dt, pos.y + vy * dt, pos.z + vel.z * dt);
    if p.y < FloorY {
      m := Motion(p.(y := FloorY), vel.(y := 0.0));
    } else {
      m := Motion(p, vel.(y := vy));
    }
  }

  /** The loop's body for the entity at `i`. */
  method StepAt(w: World, i: nat, rs: seq<RegionRef>, gy: real, dt: real, inside: Inside) returns (r: World)
    requires i < |w.entities|
    ensures r == StepEntity(w, i, rs, gy, dt, inside)
  {
    r := w;
    var ent := w.entities[i];
    var phys := Find(ent.components, PhysicsType);
    if phys.Some? && phys.value.GPhysics? && !(phys.value.isStatic.Some? && phys.value.isStatic.value) && ent.id in w.nodes {
      var node := w.nodes[ent.id];
      var scale, tint := ResolveAt(rs, node.position, inside);
      if node.kind == MeshNode {
        if tint.Some? {
          node := node.(overlay := true, overlayColor := tint);
        } else {
          node := node.(overlay := false);
        }
      }
      var m := Advance(node.position, phys.value.velocity, phys.value.useGravity, gy, scale, dt);
      r := World(w.entities[i := ent.(components := SetVelocity(ent.components, m.velocity))], w.nodes[ent.id := node.(position := m.position)]);
    } else {
      assert !(Moves(ent) && ent.id in w.nodes);
    }
  }

  /** The transform step of `syncEntity`. */
  method PlaceNode(n: GNode, e: GEntity, playing: bool) returns (r: GNode)
    ensures r == Place(n, e, playing)
  {
    r := n;
    var transform := Find(e.components, TransformType);
    var physics := Find(e.components, PhysicsType);
    var isStatic := if physics.Some? && physics.value.GPhysics? && physics.value.isStatic.Some? then physics.value.isStatic.value else true;
    if !playing || isStatic {
      if transform.Some? && transform.value.GTransform? {
        r := r.(position := transform.value.position, rotation := transform.value.rotation);
        if r.kind != CameraNode {
          r := r.(scaling := Some(transform.value.scale));
        }
      }
    }
  }

  /** The mesh step of `syncEntity`; `used` is the colour whose material
      the node gets, if any. */
  method DressNode(n: GNode, e: GEntity) returns (r: GNode, used: Option<string>)
    ensures r == Dress(n, e) && used == MaterialUsed(n, e)
  {
    r := n;
    used := None;
    var mesh := Find(e.components, MeshType);
    if mesh.Some? && mesh.value.GMesh? && r.kind == MeshNode {
      r := r.(visible := mesh.value.visible, visibility := 1.0);
      var region := Find(e.components, RegionType);
      if region.Some? && region.value.GRegion? {
        r := r.(scaling := Some(region.value.size), visibility := 0.2, pickable := false);
      }
      r := r.(material := Some(mesh.value.color));
      used := Some(mesh.value.color);
    }
  }

  /** `runGameLoop()` on values: gather and sort the regions, then step the
      entities in order. */
  method Simulate(level: GLevel, nodes: map<string, GNode>, dt: real, inside: Inside) returns (w: World)
    ensures w == GameLoop(level, nodes, dt, inside)
  {
    var gathered := GatherRegions(level.entities, nodes);
    var rs := Sort(gathered, ByPriority);
    w := World(level.entities, nodes);
    var i := 0;
    while i < |level.entities|
      invariant 0 <= i <= |level.entities|
      invariant w == StepAll(World(level.entities, nodes), i, rs, level.gravity.y, dt, inside)
    {
      w := StepAt(w, i, rs, level.gravity.y, dt, inside);
      i := i + 1;
    }
  }

  class EngineService {
    /** `entityNodeMap`. */
    var nodes: map<string, GNode>
    /** The colours of `materialCache`. */
    var materials: set<string>
    /** The entity whose camera is the scene's active camera. */
    var camera: Option<string>
    var isPlaying: bool
    /** `currentLevelData`. */
    var current: Option<GLevel>

    /** The scene the service keeps. */
    function SceneOf(): Scene
      reads this
    {
      Scene(nodes, materials, camera)
    }

    /** Every material in use is cached. */
    ghost predicate Valid()
      reads this
    {
      MaterialsCached(SceneOf())
    }

    /** A new service: no nodes, no materials, no active camera, not
        playing and no level. */
    constructor ()
      ensures Valid()
      ensures nodes == map[] && materials == {} && camera == None && !isPlaying && current == None
    {
      nodes := map[];
      materials := {};
      camera := None;
      isPlaying := false;
      current := None;
    }

    /** `syncEntity(entity)`: find or create the entity's node, then write
        its transform and its mesh properties. */
    method SyncEntity(e: GEntity)
      modifies this`nodes, this`materials, this`camera
      ensures SceneOf() == SyncEntityOn(old(SceneOf()), e, isPlaying)
    {
      var node: GNode;
      if e.id in nodes {
        node := nodes[e.id];
      } else {
        var kind := KindFor(e);
        node := NewNode(kind);
        if kind == CameraNode {
          camera := Some(e.id);
        }
      }
      ghost var n0 := node;
      node := PlaceNode(node, e, isPlaying);
      var used;
      node, used := DressNode(node, e);
      assert used == MaterialUsed(n0, e);
      if used.Some? && used.value !in materials {
        materials := materials + {used.value};
      }
      nodes := nodes[e.id := node];
    }

    /** `syncLevel(level, playing)`: every entity synced in order, then the
        nodes of entities no longer in the level dropped. */
    method SyncLevel(level: GLevel, playing: bool)
      requires Valid()
      modifies this
      ensures Valid()
      ensures isPlaying == playing && current == Some(level)
      ensures SceneOf() == SyncLevelOn(old(SceneOf()), level, playing)
    {
      isPlaying := playing;
      current := Some(level);
      var processed := SyncEntities(level.entities);
      DropUnprocessed(processed);
      SyncAllKeepsMaterialsCached(old(SceneOf()), level.entities, playing);
    }

    /** The first pass of `syncLevel`: `syncEntity` on every entity in
        order, collecting `processedIds`. */
    method SyncEntities(es: seq<GEntity>) returns (processed: set<string>)
      modifies this`nodes, this`materials, this`camera
      ensures processed == Ids(es)
      ensures SceneOf() == SyncAll(old(SceneOf()), es, isPlaying)
    {
      processed := {};
      var i := 0;
      while i < |es|
        invariant 0 <= i <= |es|
        invariant processed == Ids(es[..i])
        invariant SceneOf() == SyncAll(old(SceneOf()), es[..i], isPlaying)
      {
        SyncEntity(es[i]);
        assert es[..i + 1][..i] == es[..i];
        processed := processed + {es[i].id};
        i := i + 1;
      }
      assert es[..i] == es;
    }

    /** The second pass of `syncLevel`: the nodes whose id was not
        processed are disposed of and deleted. */
    method DropUnprocessed(processed: set<string>)
      modifies this`nodes
      ensures nodes == Cleanup(old(nodes), processed)
    {
      var pending := nodes.Keys;
      while pending != {}
        invariant pending <= old(nodes).Keys
        invariant nodes == map id | id in old(nodes) && (id in processed || id in pending) :: old(nodes)[id]
        decreases pending
      {
        var id :| id in pending;
        if id !in processed {
          nodes := nodes - {id};
        }
        pending := pending - {id};
      }
    }

    /** `runGameLoop()`: nothing without a level; otherwise the regions and
        physics step over the synced level, whose velocities it updates. */
    method RunGameLoop(dt: real, inside: Inside)
      modifies this`nodes, this`current
      ensures old(current).None? ==> nodes == old(nodes) && current == None
      ensures old(current).Some? ==>
        var w := GameLoop(old(current).value, old(nodes), dt, inside);
        nodes == w.nodes && current == Some(old(current).value.(entities := w.entities))
    {
      if current.Some? {
        var level := current.value;
        var w := Simulate(level, nodes, dt, inside);
        nodes := w.nodes;
        current := Some(level.(entities := w.entities));
      }
    }

    /** One call of the render-loop callback: the game loop runs only while
        playing. */
    method Frame(dt: real, inside: Inside)
      modifies this`nodes, this`current
      ensures !isPlaying ==> nodes == old(nodes) && current == old(current)
      ensures isPlaying && old(current).Some? ==>
        var w := GameLoop(old(current).value, old(nodes), dt, inside);
        nodes == w.nodes && current == Some(old(current).value.(entities := w.entities))
    {
      if isPlaying {
        RunGameLoop(dt, inside);
      }
    }
  }
}
