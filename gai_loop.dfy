/** The gAI submission's `runGameLoop` (services/EngineService.ts), the
    region resolution and physics step run once per rendered frame while
    playing.

    The regions are the entities with a Region component whose node is a
    mesh (only a mesh has the bounding box the loop tests against), taken in
    the level's order and then sorted by descending priority. Each entity
    with a non-static Physics component and a node is then resolved and
    stepped: the gravity scale starts at 1 and every region whose box holds
    the node's position and whose modifiers set a gravity scale applies it by
    its blend mode; the tint is the last such region's tint; the velocity
    gets the scaled gravity, the position moves by the velocity, and a node
    that sinks below height 0.5 is put back on it and stopped.

    Whether a region's box holds a point is the parameter `inside`, given
    the region's node as it was when the regions were gathered. */
module GaiLoop {
  import opened Wrappers
  import opened Vectors
  import opened SeqUtil
  import opened GaiScene
  import opened PrioritySort

  /** `bounds.intersectsPoint(p)` for the bounding info of the region whose
      node is given, whatever the shape of its mesh. */
  type Inside = (GNode, Vec3) -> bool

  /** The floor height. */
  const FloorY: real := 0.5

  /** A gathered region: its priority, blend mode and modifiers, and its node. */
  datatype RegionRef = RegionRef(priority: real, blend: Blend, gravityScale: Option<real>, tint: Option<string>, bounds: GNode)

  /** The region an entity contributes, if it has a Region component and a
      mesh node. */
  function RegionOf(e: GEntity, nodes: map<string, GNode>): Option<RegionRef> {
    match Find(e.components, RegionType)
    case Some(GRegion(pri, _, blend, g, t)) =>
      if e.id in nodes && nodes[e.id].kind == MeshNode then Some(RegionRef(pri, blend, g, t, nodes[e.id])) else None
    case _ => None
  }

  /** The regions of `es`, in order. */
  function Gather(es: seq<GEntity>, nodes: map<string, GNode>): seq<RegionRef> {
    if es == [] then []
    else Gather(es[..|es| - 1], nodes) + match RegionOf(es[|es| - 1], nodes) case Some(r) => [r] case None => []
  }

  function ByPriority(r: RegionRef): real {
    r.priority
  }

  /** `regions.sort((a, b) => b.comp.priority - a.comp.priority)`. */
  function Ordered(es: seq<GEntity>, nodes: map<string, GNode>): seq<RegionRef> {
    Sort(Gather(es, nodes), ByPriority)
  }

  /** One region's effect on the gravity scale at `pos`. */
  function ApplyScale(scale: real, r: RegionRef, pos: Vec3, inside: Inside): real {
    if inside(r.bounds, pos) && r.gravityScale.Some? then
      match r.blend
      case BlendOverride => r.gravityScale.value
      case BlendMultiply => scale * r.gravityScale.value
      case BlendAdd => scale + r.gravityScale.value
      case BlendOther => scale
    else scale
  }

  /** The gravity scale after the regions `rs`, in order, from `start`. */
  function GravityScale(start: real, rs: seq<RegionRef>, pos: Vec3, inside: Inside): real {
    if rs == [] then start
    else ApplyScale(GravityScale(start, rs[..|rs| - 1], pos, inside), rs[|rs| - 1], pos, inside)
  }

  /** A region sets the tint at `pos` when it holds `pos` and its tint is a
      non-empty string. */
  predicate Tints(r: RegionRef, pos: Vec3, inside: Inside) {
    inside(r.bounds, pos) && r.tint.Some? && r.tint.value != ""
  }

  /** The tint after the regions `rs`, in order, from `start`. */
  function Tint(start: Option<string>, rs: seq<RegionRef>, pos: Vec3, inside: Inside): Option<string> {
    if rs == [] then start
    else if Tints(rs[|rs| - 1], pos, inside) then rs[|rs| - 1].tint
    else Tint(start, rs[..|rs| - 1], pos, inside)
  }

  /** A node's position and its Physics component's velocity. */
  datatype Motion = Motion(position: Vec3, velocity: Vec3)

  /** The physics step: gravity into the y velocity when `useGravity`, the
      position by the new velocity, and the floor. */
  function Integrate(pos: Vec3, vel: Vec3, useGravity: bool, gy: real, scale: real, dt: real): Motion {
    var vy := if useGravity then vel.y + gy * scale * dt else vel.y;
    var p := Vec3(pos.x + vel.x * dt, pos.y + vy * dt, pos.z + vel.z * dt);
    if p.y < FloorY then Motion(p.(y := FloorY), vel.(y := 0.0)) else Motion(p, vel.(y := vy))
  }

  /** `cs` with the first Physics component's velocity set to `v`. */
  function SetVelocity(cs: seq<GComponent>, v: Vec3): seq<GComponent> {
    if cs == [] then []
    else if cs[0].GPhysics? then [cs[0].(velocity := v)] + cs[1..]
    else [cs[0]] + SetVelocity(cs[1..], v)
  }

  /** The tint overlay a mesh gets; other nodes have none. */
  function Overlay(n: GNode, tint: Option<string>): GNode {
    if n.kind != MeshNode then n
    else if tint.Some? then n.(overlay := true, overlayColor := tint)
    else n.(overlay := false)
  }

  /** The level's entities and the node map, as the loop changes them. */
  datatype World = World(entities: seq<GEntity>, nodes: map<string, GNode>)

  /** The loop's body for the entity at `i`. */
  function StepEntity(w: World, i: nat, rs: seq<RegionRef>, gy: real, dt: real, inside: Inside): World
    requires i < |w.entities|
  {
    var e := w.entities[i];
    if Moves(e) && e.id in w.nodes then
      var phys := Find(e.components, PhysicsType).value;
      var n := w.nodes[e.id];
      var m := Integrate(n.position, phys.velocity, phys.useGravity, gy, GravityScale(1.0, rs, n.position, inside), dt);
      World(w.entities[i := e.(components := SetVelocity(e.components, m.velocity))],
            w.nodes[e.id := Overlay(n, Tint(None, rs, n.position, inside)).(position := m.position)])
    else w
  }

  /** The loop over the first `n` entities. */
  function StepAll(w: World, n: nat, rs: seq<RegionRef>, gy: real, dt: real, inside: Inside): World
    requires n <= |w.entities|
    ensures |StepAll(w, n, rs, gy, dt, inside).entities| == |w.entities|
  {
    if n == 0 then w
    else StepEntity(StepAll(w, n - 1, rs, gy, dt, inside), n - 1, rs, gy, dt, inside)
  }

  /** `runGameLoop()` for `level` and the node map, `dt` seconds after the
      last frame. */
  function GameLoop(level: GLevel, nodes: map<string, GNode>, dt: real, inside: Inside): World {
    StepAll(World(level.entities, nodes), |level.entities|, Ordered(level.entities, nodes), level.gravity.y, dt, inside)
  }

  // ---- The regions ----

  /** The regions gathered are those of the entities with a Region
      component and a mesh node. */
  lemma {:induction false} GatherExactly(es: seq<GEntity>, nodes: map<string, GNode>)
    ensures forall r :: r in Gather(es, nodes) <==> exists i | 0 <= i < |es| :: RegionOf(es[i], nodes) == Some(r)
  {
    if es != [] {
      var init := es[..|es| - 1];
      GatherExactly(init, nodes);
      forall r | r in Gather(es, nodes)
        ensures exists i | 0 <= i < |es| :: RegionOf(es[i], nodes) == Some(r)
      {
        if r in Gather(init, nodes) {
          var i :| 0 <= i < |init| && RegionOf(init[i], nodes) == Some(r);
          assert es[i] == init[i];
        }
      }
      forall r, i | 0 <= i < |es| && RegionOf(es[i], nodes) == Some(r)
        ensures r in Gather(es, nodes)
      {
        if i < |init| {
          assert init[i] == es[i];
        }
      }
    }
  }

  /** The regions are visited from the highest priority down, each once,
      and regions of equal priority in the level's order. */
  lemma RegionOrder(es: seq<GEntity>, nodes: map<string, GNode>, p: real)
    ensures var rs := Ordered(es, nodes);
      && Descending(rs, ByPriority)
      && multiset(rs) == multiset(Gather(es, nodes))
      && WithPriority(rs, ByPriority, p) == WithPriority(Gather(es, nodes), ByPriority, p)
  {
    SortIsStable(Gather(es, nodes), ByPriority, p);
  }

  // ---- The gravity scale ----

  /** A region changes the gravity scale at `pos` when it holds `pos`, sets
      a gravity scale and has one of the three blend modes. */
  predicate Scales(r: RegionRef, pos: Vec3, inside: Inside) {
    inside(r.bounds, pos) && r.gravityScale.Some? && r.blend != BlendOther
  }

  /** No region that scales: the scale is where it started, 1 in the loop. */
  lemma {:induction false} NoScalingRegionKeepsScale(start: real, rs: seq<RegionRef>, pos: Vec3, inside: Inside)
    requires forall i | 0 <= i < |rs| :: !Scales(rs[i], pos, inside)
    ensures GravityScale(start, rs, pos, inside) == start
  {
    if rs != [] {
      NoScalingRegionKeepsScale(start, rs[..|rs| - 1], pos, inside);
    }
  }

  /** An override forgets every region before it: from there on the scale
      is its value, changed only by the regions after it. */
  lemma {:induction false} OverrideResetsScale(start: real, rs: seq<RegionRef>, pos: Vec3, inside: Inside, i: nat)
    requires i < |rs| && Scales(rs[i], pos, inside) && rs[i].blend == BlendOverride
    ensures GravityScale(start, rs, pos, inside) == GravityScale(rs[i].gravityScale.value, rs[i + 1..], pos, inside)
  {
    if i < |rs| - 1 {
      OverrideResetsScale(start, rs[..|rs| - 1], pos, inside, i);
      assert rs[..|rs| - 1][i + 1..] == rs[i + 1..|rs| - 1];
      assert rs[i + 1..][..|rs[i + 1..]| - 1] == rs[i + 1..|rs| - 1];
    } else {
      assert rs[i + 1..] == [];
    }
  }

  /** The regions are sorted by descending priority, so the last writer is
      the lowest: an override region holding `pos` decides the scale when
      every other region that scales at `pos` has a higher priority. */
  lemma LowestPriorityOverrideDecides(es: seq<GEntity>, nodes: map<string, GNode>, pos: Vec3, inside: Inside, i: nat)
    requires var rs := Ordered(es, nodes);
      && i < |rs| && Scales(rs[i], pos, inside) && rs[i].blend == BlendOverride
      && forall j | 0 <= j < |rs| && j != i && Scales(rs[j], pos, inside) :: rs[j].priority > rs[i].priority
    ensures GravityScale(1.0, Ordered(es, nodes), pos, inside) == Ordered(es, nodes)[i].gravityScale.value
  {
    var rs := Ordered(es, nodes);
    RegionOrder(es, nodes, 0.0);
    OverrideResetsScale(1.0, rs, pos, inside, i);
    var tail := rs[i + 1..];
    forall k | 0 <= k < |tail|
      ensures !Scales(tail[k], pos, inside)
    {
      assert tail[k] == rs[i + 1 + k];
      assert ByPriority(rs[i]) >= ByPriority(rs[i + 1 + k]);
    }
    NoScalingRegionKeepsScale(rs[i].gravityScale.value, tail, pos, inside);
  }

  // ---- The tint ----

  /** The tint is the last writer's: some region holding `pos` with a
      non-empty tint, after which no region sets one, and nothing when no
      region sets one. */
  lemma {:induction false} TintIsLastWriter(rs: seq<RegionRef>, pos: Vec3, inside: Inside)
    ensures Tint(None, rs, pos, inside).None? <==> forall i | 0 <= i < |rs| :: !Tints(rs[i], pos, inside)
    ensures Tint(None, rs, pos, inside).Some? ==>
      exists i | 0 <= i < |rs| :: Tints(rs[i], pos, inside) && rs[i].tint == Tint(None, rs, pos, inside)
        && forall j | i < j < |rs| :: !Tints(rs[j], pos, inside)
  {
    if rs != [] {
      var init := rs[..|rs| - 1];
      TintIsLastWriter(init, pos, inside);
      if !Tints(rs[|rs| - 1], pos, inside) {
        if Tint(None, rs, pos, inside).Some? {
          var i :| 0 <= i < |init| && Tints(init[i], pos, inside) && init[i].tint == Tint(None, init, pos, inside)
            && forall j | i < j < |init| :: !Tints(init[j], pos, inside);
          assert rs[i] == init[i];
          forall j | i < j < |rs| ensures !Tints(rs[j], pos, inside) {
            if j < |init| {
              assert rs[j] == init[j];
            }
          }
        } else {
          forall i | 0 <= i < |rs| ensures !Tints(rs[i], pos, inside) {
            if i < |init| {
              assert rs[i] == init[i];
            }
          }
        }
      }
    }
  }

  // ---- The physics step ----

  /** After a step the node is on or above the floor; only the y velocity
      changes, and x and z move by the velocity. */
  lemma IntegrateKeepsAboveFloor(pos: Vec3, vel: Vec3, useGravity: bool, gy: real, scale: real, dt: real)
    ensures var m := Integrate(pos, vel, useGravity, gy, scale, dt);
      && m.position.y >= FloorY
      && m.velocity.x == vel.x && m.velocity.z == vel.z
      && m.position.x == pos.x + vel.x * dt && m.position.z == pos.z + vel.z * dt
  {
  }

  /** Above the floor the step is semi-implicit Euler: the new velocity
      moves the node; without gravity the velocity is kept. */
  lemma IntegrateInFlight(pos: Vec3, vel: Vec3, useGravity: bool, gy: real, scale: real, dt: real)
    ensures var m := Integrate(pos, vel, useGravity, gy, scale, dt);
      && (m.position.y > FloorY ==> m.position.y == pos.y + m.velocity.y * dt)
      && (m.position.y > FloorY && !useGravity ==> m.velocity == vel)
      && (m.position.y > FloorY && useGravity ==> m.velocity.y == vel.y + gy * scale * dt)
  {
  }

  /** A node resting on the floor stays there as long as the scaled
      gravity does not pull it up. */
  lemma RestingStaysResting(pos: Vec3, vel: Vec3, useGravity: bool, gy: real, scale: real, dt: real)
    requires pos.y == FloorY && vel.y == 0.0 && dt >= 0.0
    requires useGravity ==> gy * scale <= 0.0
    ensures var m := Integrate(pos, vel, useGravity, gy, scale, dt);
      m.position.y == FloorY && m.velocity.y == 0.0
  {
    var vy := if useGravity then vel.y + gy * scale * dt else vel.y;
    assert vy <= 0.0 by {
      if useGravity {
        assert gy * scale * dt == (gy * scale) * dt;
      }
    }
    assert vy * dt <= 0.0;
    if dt > 0.0 && vy < 0.0 {
      assert vy * dt < 0.0;
    }
  }

  // ---- The whole loop ----

  /** The entities the loop has not reached are as they were. */
  lemma {:induction false} StepAllLeavesRest(w: World, n: nat, rs: seq<RegionRef>, gy: real, dt: real, inside: Inside)
    requires n <= |w.entities|
    ensures forall k | n <= k < |w.entities| :: StepAll(w, n, rs, gy, dt, inside).entities[k] == w.entities[k]
  {
    if n > 0 {
      StepAllLeavesRest(w, n - 1, rs, gy, dt, inside);
    }
  }

  /** One pass of the loop: it touches only the entity it is at and that
      entity's node, and only when the entity moves; the node stays a node
      of the same kind and ends on or above the floor. */
  lemma StepEntityFrame(w: World, i: nat, rs: seq<RegionRef>, gy: real, dt: real, inside: Inside)
    requires i < |w.entities|
    ensures var r := StepEntity(w, i, rs, gy, dt, inside);
      && |r.entities| == |w.entities|
      && (forall k | 0 <= k < |w.entities| && k != i :: r.entities[k] == w.entities[k])
      && r.nodes.Keys == w.nodes.Keys
      && (forall id | id in w.nodes :: r.nodes[id].kind == w.nodes[id].kind)
      && (forall id | id in w.nodes && (id != w.entities[i].id || !Moves(w.entities[i])) :: r.nodes[id] == w.nodes[id])
      && (Moves(w.entities[i]) && w.entities[i].id in w.nodes ==> r.nodes[w.entities[i].id].position.y >= FloorY)
  {
    var e := w.entities[i];
    if Moves(e) && e.id in w.nodes {
      var phys := Find(e.components, PhysicsType).value;
      var np := w.nodes[e.id].position;
      IntegrateKeepsAboveFloor(np, phys.velocity, phys.useGravity, gy, GravityScale(1.0, rs, np, inside), dt);
    }
  }

  /** The loop keeps the node map's ids and every node's kind, and leaves
      alone the node of any id no moving entity carries. */
  lemma {:induction false} StepAllFrame(w: World, n: nat, rs: seq<RegionRef>, gy: real, dt: real, inside: Inside)
    requires n <= |w.entities|
    ensures var r := StepAll(w, n, rs, gy, dt, inside);
      && r.nodes.Keys == w.nodes.Keys
      && (forall id | id in w.nodes :: r.nodes[id].kind == w.nodes[id].kind)
      && forall id | id in w.nodes && (forall i | 0 <= i < n && w.entities[i].id == id :: !Moves(w.entities[i])) ::
           r.nodes[id] == w.nodes[id]
  {
    if n > 0 {
      var prev := StepAll(w, n - 1, rs, gy, dt, inside);
      StepAllFrame(w, n - 1, rs, gy, dt, inside);
      StepAllLeavesRest(w, n - 1, rs, gy, dt, inside);
      StepEntityFrame(prev, n - 1, rs, gy, dt, inside);
      assert prev.entities[n - 1] == w.entities[n - 1];
    }
  }

  /** Every node a moving entity has is on or above the floor afterwards. */
  lemma {:induction false} StepAllAboveFloor(w: World, n: nat, rs: seq<RegionRef>, gy: real, dt: real, inside: Inside)
    requires n <= |w.entities|
    ensures forall i | 0 <= i < n && Moves(w.entities[i]) && w.entities[i].id in w.nodes ::
      w.entities[i].id in StepAll(w, n, rs, gy, dt, inside).nodes
      && StepAll(w, n, rs, gy, dt, inside).nodes[w.entities[i].id].position.y >= FloorY
  {
    if n > 0 {
      var prev := StepAll(w, n - 1, rs, gy, dt, inside);
      StepAllAboveFloor(w, n - 1, rs, gy, dt, inside);
      StepAllFrame(w, n - 1, rs, gy, dt, inside);
      StepAllLeavesRest(w, n - 1, rs, gy, dt, inside);
      StepEntityFrame(prev, n - 1, rs, gy, dt, inside);
      assert prev.entities[n - 1] == w.entities[n - 1];
    }
  }

  /** Over a whole frame: the node map keeps its ids and kinds, the nodes of
      entities that do not move stay as they were, and every moving entity's
      node ends on or above the floor. */
  lemma GameLoopFrame(level: GLevel, nodes: map<string, GNode>, dt: real, inside: Inside)
    ensures var r := GameLoop(level, nodes, dt, inside);
      && r.nodes.Keys == nodes.Keys
      && (forall id | id in nodes :: r.nodes[id].kind == nodes[id].kind)
      && (forall id | id in nodes && (forall i | 0 <= i < |level.entities| && level.entities[i].id == id :: !Moves(level.entities[i])) ::
           r.nodes[id] == nodes[id])
      && forall i | 0 <= i < |level.entities| && Moves(level.entities[i]) && level.entities[i].id in nodes ::
           r.nodes[level.entities[i].id].position.y >= FloorY
  {
    var w := World(level.entities, nodes);
    var rs := Ordered(level.entities, nodes);
    StepAllFrame(w, |level.entities|, rs, level.gravity.y, dt, inside);
    StepAllAboveFloor(w, |level.entities|, rs, level.gravity.y, dt, inside);
  }
}
