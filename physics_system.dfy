/** julesv1/src/systems/PhysicsSystem.ts: semi-implicit Euler integration of
    every active entity that has both a Physics and a Transform component,
    followed by the floor clamp at height 0.5. The step of one entity is the
    function `StepPhysics`; the system's `update` is proved to apply it to
    every entity of the level. */
module PhysicsSystems {
  import opened Vectors
  import opened Constants
  import opened Wrappers
  import opened Components
  import opened Entities
  import opened Levels

  /** The height below which an integrated position is pushed back up. */
  const Floor: real := 0.5

  /** The velocity after one step: `velocity += effectiveGravity * dt`. */
  function NextVelocity(p: Component, dt: real): Vec3
    requires p.Physics?
  {
    Vectors.Add(p.velocity, Scale(p.effectiveGravity, dt))
  }

  /** The position after one step, before the clamp: it moves by the NEW
      velocity times dt. */
  function NextPosition(p: Component, t: Component, dt: real): Vec3
    requires p.Physics? && t.Transform?
  {
    Vectors.Add(t.position, Scale(NextVelocity(p, dt), dt))
  }

  /** The Physics and Transform components after one step, clamp included. */
  function Integrate(p: Component, t: Component, dt: real): (Component, Component)
    requires p.Physics? && t.Transform?
  {
    var v := NextVelocity(p, dt);
    var pos := NextPosition(p, t, dt);
    if pos.y < Floor then (p.(velocity := v.(y := 0.0)), t.(position := pos.(y := Floor)))
    else (p.(velocity := v), t.(position := pos))
  }

  /** Integrated entities are the active ones holding both components. */
  predicate Moves(b: Body) {
    && b.state == Active
    && PhysicsKind in b.components && b.components[PhysicsKind].Physics?
    && TransformKind in b.components && b.components[TransformKind].Transform?
  }

  /** What `update(dt)` does to one entity. */
  function StepPhysics(b: Body, dt: real): Body {
    if Moves(b) then
      var r := Integrate(b.components[PhysicsKind], b.components[TransformKind], dt);
      Body(b.state, b.components[PhysicsKind := r.0][TransformKind := r.1])
    else b
  }

  /** What `update(dt)` does to the whole level. */
  function PhysicsWorld(w: map<string, Body>, dt: real): map<string, Body> {
    map id | id in w :: StepPhysics(w[id], dt)
  }

  /** After a step the position is never below the floor, and the clamp
      changes only the vertical position and velocity: x and z keep the
      integrated values, y is raised to the floor with a zero vertical
      velocity exactly when the integrated height is below it. */
  lemma IntegrateClampsToFloor(p: Component, t: Component, dt: real)
    requires p.Physics? && t.Transform?
    ensures var r := Integrate(p, t, dt);
      var v := NextVelocity(p, dt);
      var pos := NextPosition(p, t, dt);
      && r.1.position.y >= Floor
      && r.1.position.x == pos.x && r.1.position.z == pos.z
      && r.0.velocity.x == v.x && r.0.velocity.z == v.z
      && (pos.y < Floor ==> r.1.position.y == Floor && r.0.velocity.y == 0.0)
      && (pos.y >= Floor ==> r.1.position == pos && r.0.velocity == v)
  {
  }

  /** Semi-implicit, not explicit, Euler: above the floor the new position is
      the explicit-Euler one, `position + velocity*dt`, plus the extra
      `gravity*dt*dt` that comes from moving with the updated velocity. */
  lemma PositionUsesUpdatedVelocity(p: Component, t: Component, dt: real)
    requires p.Physics? && t.Transform?
    requires NextPosition(p, t, dt).y >= Floor
    ensures var g := p.effectiveGravity;
      Integrate(p, t, dt).1.position ==
        Vectors.Add(Vectors.Add(t.position, Scale(p.velocity, dt)), Scale(g, dt * dt))
  {
  }

  /** Only the velocity and the position change: mass, both gravities,
      rotation, scale and parent are kept. */
  lemma IntegrateKeepsOtherFields(p: Component, t: Component, dt: real)
    requires p.Physics? && t.Transform?
    ensures var r := Integrate(p, t, dt);
      && r.0.Physics? && r.0.owner == p.owner && r.0.mass == p.mass
      && r.0.baseGravity == p.baseGravity && r.0.effectiveGravity == p.effectiveGravity
      && r.1.Transform? && r.1.owner == t.owner && r.1.rotation == t.rotation
      && r.1.scale == t.scale && r.1.parentId == t.parentId
  {
  }

  /** A body resting on the floor with no vertical velocity, under gravity
      that does not point up, stays on the floor with no vertical velocity. */
  lemma RestingStaysOnFloor(p: Component, t: Component, dt: real)
    requires p.Physics? && t.Transform?
    requires t.position.y == Floor && p.velocity.y == 0.0
    requires p.effectiveGravity.y <= 0.0 && dt >= 0.0
    ensures Integrate(p, t, dt).1.position.y == Floor
    ensures Integrate(p, t, dt).0.velocity.y == 0.0
  {
    var g := p.effectiveGravity.y;
    assert NextVelocity(p, dt).y == g * dt;
    assert g * dt * dt <= 0.0 by {
      assert dt * dt >= 0.0;
    }
    assert NextPosition(p, t, dt).y == Floor + g * dt * dt;
  }

  /** The step of one entity: a moving entity gets the integrated Physics and
      Transform and keeps every other component and its state; any other
      entity is unchanged. */
  lemma StepPhysicsIsLocal(b: Body, dt: real)
    ensures StepPhysics(b, dt).state == b.state
    ensures StepPhysics(b, dt).components.Keys == b.components.Keys
    ensures forall k | k in b.components && k != PhysicsKind && k != TransformKind ::
      StepPhysics(b, dt).components[k] == b.components[k]
    ensures !Moves(b) ==> StepPhysics(b, dt) == b
    ensures Moves(b) ==>
      var r := Integrate(b.components[PhysicsKind], b.components[TransformKind], dt);
      && StepPhysics(b, dt).components[PhysicsKind] == r.0
      && StepPhysics(b, dt).components[TransformKind] == r.1
      && r.1.position.y >= Floor
  {
    if Moves(b) {
      IntegrateClampsToFloor(b.components[PhysicsKind], b.components[TransformKind], dt);
    }
  }

  /** The loop of `update` after visiting `ids[..i]`, stated on values: the
      visited entities are stepped, the others untouched. */
  ghost predicate SteppedUpTo(w: map<string, Body>, ids: seq<string>, i: nat, w0: map<string, Body>, dt: real)
    requires i <= |ids|
  {
    && w.Keys == w0.Keys
    && forall k | k in w :: w[k] == if k in ids[..i] then StepPhysics(w0[k], dt) else w0[k]
  }

  lemma SteppedNext(w: map<string, Body>, ids: seq<string>, i: nat, w0: map<string, Body>, dt: real)
    requires i < |ids| && ids[i] !in ids[..i] && ids[i] in w
    requires SteppedUpTo(w, ids, i, w0, dt)
    ensures SteppedUpTo(w[ids[i] := StepPhysics(w[ids[i]], dt)], ids, i + 1, w0, dt)
  {
    var w1 := w[ids[i] := StepPhysics(w[ids[i]], dt)];
    forall k | k in w1
      ensures w1[k] == if k in ids[..i + 1] then StepPhysics(w0[k], dt) else w0[k]
    {
      assert k in ids[..i + 1] <==> k in ids[..i] || k == ids[i];
    }
  }

  lemma SteppedAll(w: map<string, Body>, ids: seq<string>, w0: map<string, Body>, dt: real)
    requires SteppedUpTo(w, ids, |ids|, w0, dt)
    requires forall k | k in w0 :: k in ids
    ensures w == PhysicsWorld(w0, dt)
  {
    assert ids[..|ids|] == ids;
  }

  class PhysicsSystem {
    const level: Level

    constructor (level: Level)
      ensures this.level == level
    {
      this.level := level;
    }

    /** The body of the `forEach` callback for one entity `e` whose state and
        components are `b`. */
    method StepEntity(e: Entity, ghost b: Body, dt: real)
      requires e.Valid() && b == Body(e.state, e.components)
      modifies e`components
      ensures e.Valid() && Body(e.state, e.components) == StepPhysics(b, dt)
    {
      if e.state != Active {
        return;
      }
      var physics := e.GetComponent(PhysicsKind);
      var transform := e.GetComponent(TransformKind);
      if physics.Some? && transform.Some? {
        var p := physics.value;
        var t := transform.value;
        var velocity := Vectors.Add(p.velocity, Scale(p.effectiveGravity, dt));
        var position := Vectors.Add(t.position, Scale(velocity, dt));
        if position.y < Floor {
          position := position.(y := Floor);
          velocity := velocity.(y := 0.0);
        }
        e.Replace(p.(velocity := velocity));
        e.Replace(t.(position := position));
      }
    }

    /** `StepEntity` on the entity stored under `id` in a level whose world is
        `w`: the world changes at that id alone. */
    method StepAt(e: Entity, id: string, ghost w: map<string, Body>, dt: real)
      requires level.Valid() && id in level.entities && e == level.entities[id] && w == level.World()
      modifies e`components
      ensures level.Valid()
      ensures level.World() == w[id := StepPhysics(w[id], dt)]
    {
      forall k | k in level.entities && k != id ensures level.entities[k] != e {
        assert level.entities[k].id == k;
      }
      assert forall k | k in level.entities :: level.BodyOf(k) == w[k];
      StepEntity(e, w[id], dt);
      ghost var w1 := w[id := StepPhysics(w[id], dt)];
      forall k | k in level.entities ensures level.entities[k].Valid() && level.BodyOf(k) == w1[k] {
        if k != id {
          assert level.entities[k] != e;
        }
      }
      level.WorldIs(w1);
    }

    /** `update(dt)`: every entity ends as `PhysicsWorld` says; the level's
        entity set, states, component orders and hooks are untouched. */
    method Update(dt: real)
      requires level.Valid()
      modifies level.entities.Values`components
      ensures level.Valid()
      ensures level.World() == PhysicsWorld(old(level.World()), dt)
    {
      ghost var w0 := level.World();
      var ids := level.ids;
      var i := 0;
      assert ids[..0] == [];
      while i < |ids|
        invariant 0 <= i <= |ids|
        invariant level.Valid() && ids == level.ids
        invariant SteppedUpTo(level.World(), ids, i, w0, dt)
      {
        ghost var w := level.World();
        StepAt(level.entities[ids[i]], ids[i], w, dt);
        SteppedNext(w, ids, i, w0, dt);
        i := i + 1;
      }
      SteppedAll(level.World(), ids, w0, dt);
    }
  }
}
