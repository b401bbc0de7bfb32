/** julesv1/src/systems/RegionSystem.ts: the system object, whose membership
    cache and the level it works on change as `update` runs. Each method is
    proved against the functions of `RegionRules`. */
module RegionSystems {
  import opened Wrappers
  import opened Constants
  import opened Vectors
  import opened Components
  import opened Entities
  import opened Events
  import opened Levels
  import opened SeqUtil
  import opened RegionRules
  import opened RegionEvents

  /** The loop of `update` after visiting `ids[..i]`, stated on values: the
      visited entities are stepped and the others untouched, the cache and the
      trace are those of the visited ids. */
  ghost predicate ProgressOn(w: map<string, Body>, cache: map<string, seq<string>>, trace: seq<Delivery>,
                             ids: seq<string>, i: nat, regions: seq<RegionEntry>, w0: map<string, Body>, m0: map<string, seq<string>>,
                             listeners: map<string, seq<HandlerId>>, t0: seq<Delivery>)
    requires i <= |ids|
  {
    && w.Keys == w0.Keys
    && (forall k | k in w :: k in w0 && w[k] == if k in ids[..i] then StepBody(k, w0[k], regions, m0) else w0[k])
    && cache == CacheAfter(w0, ids[..i], regions, m0)
    && trace == t0 + Dispatch(listeners, NoticesAfter(w0, ids[..i], regions, m0), Source)
  }

  /** Stepping the next, not yet visited id on top of the progress so far is
      the progress one id further. */
  lemma ProgressStep(w: map<string, Body>, cache: map<string, seq<string>>, trace: seq<Delivery>,
                     ids: seq<string>, i: nat, regions: seq<RegionEntry>, w0: map<string, Body>, m0: map<string, seq<string>>,
                     listeners: map<string, seq<HandlerId>>, t0: seq<Delivery>, w1: map<string, Body>)
    requires i < |ids| && ids[i] !in ids[..i] && ids[i] in w
    requires ProgressOn(w, cache, trace, ids, i, regions, w0, m0, listeners, t0)
    requires w1 == w[ids[i] := StepBody(ids[i], w[ids[i]], regions, cache)]
    ensures ProgressOn(w1, StepCache(ids[i], w[ids[i]], regions, cache),
                       trace + Dispatch(listeners, StepNotices(ids[i], w[ids[i]], regions, cache), Source),
                       ids, i + 1, regions, w0, m0, listeners, t0)
  {
    var id := ids[i];
    assert w[id] == w0[id];
    VisitNext(w0, ids, i, regions, m0);
    DispatchExtends(t0, listeners, NoticesAfter(w0, ids[..i], regions, m0), StepNotices(id, w0[id], regions, m0));
    forall k | k in w1
      ensures k in w0 && w1[k] == if k in ids[..i + 1] then StepBody(k, w0[k], regions, m0) else w0[k]
    {
      assert k in ids[..i + 1] <==> k in ids[..i] || k == id;
    }
  }

  /** Once every id is visited and the regions are those collected from the
      original level, the progress is one whole tick. */
  lemma ProgressDone(w: map<string, Body>, cache: map<string, seq<string>>, trace: seq<Delivery>,
                     ids: seq<string>, regions: seq<RegionEntry>, w0: map<string, Body>, m0: map<string, seq<string>>,
                     listeners: map<string, seq<HandlerId>>, t0: seq<Delivery>)
    requires ProgressOn(w, cache, trace, ids, |ids|, regions, w0, m0, listeners, t0)
    requires regions == CollectRegions(w0, ids)
    requires forall k | k in w0 :: k in ids
    ensures w == TickWorld(w0, ids, m0)
    ensures cache == TickCache(w0, ids, m0)
    ensures trace == t0 + Dispatch(listeners, TickNotices(w0, ids, m0), Source)
  {
    assert ids[..|ids|] == ids;
    TickWorldPointwise(w0, ids, m0, w);
  }

  /** The containment loop of `update`: the regions whose box holds the point
      and their ids, both in region order. */
  method FindContaining(position: Vec3, regions: seq<RegionEntry>) returns (active: seq<RegionEntry>, members: seq<string>)
    ensures active == Containing(position, regions)
    ensures members == EntryIds(active)
  {
    active := [];
    members := [];
    var i := 0;
    while i < |regions|
      invariant 0 <= i <= |regions|
      invariant active == Containing(position, regions[..i])
      invariant members == EntryIds(active)
    {
      ContainingStep(position, regions, i);
      var r := regions[i];
      if IsInside(position, r.center, r.size) {
        active := active + [r];
        members := members + [r.entityId];
      }
      i := i + 1;
    }
    assert regions[..|regions|] == regions;
  }

  /** The size check followed by the element check, stopping at the first new id. */
  method CompareMembership(before: seq<string>, after: seq<string>) returns (changed: bool)
    ensures changed == MembershipChanged(before, after)
  {
    if |before| != |after| {
      return true;
    }
    changed := false;
    var i := 0;
    while i < |after|
      invariant 0 <= i <= |after|
      invariant forall j | 0 <= j < i :: after[j] in before
    {
      if after[i] !in before {
        changed := true;
        break;
      }
      i := i + 1;
    }
  }

  /** The gravity fold of `resolveProperties`, starting from the base value. */
  method FoldGravity(base: Vec3, regions: seq<RegionEntry>) returns (gravity: Vec3)
    ensures gravity == Fold(base, regions, "gravity")
  {
    gravity := base;
    var i := 0;
    while i < |regions|
      invariant 0 <= i <= |regions|
      invariant gravity == Fold(base, regions[..i], "gravity")
    {
      assert regions[..i + 1][..i] == regions[..i];
      var m := FirstModifier(regions[i].modifiers, "gravity");
      if m.Some? {
        gravity := ApplyBlend(gravity, m.value.value, m.value.blendMode);
      }
      i := i + 1;
    }
    assert regions[..|regions|] == regions;
  }

  /** The colour fold of `resolveProperties`, starting from the base colour. */
  method FoldColor(base: Color, regions: seq<RegionEntry>) returns (color: Color)
    ensures color == ColorFold(base, regions)
  {
    color := base;
    var i := 0;
    while i < |regions|
      invariant 0 <= i <= |regions|
      invariant color == ColorFold(base, regions[..i])
    {
      assert regions[..i + 1][..i] == regions[..i];
      var m := FirstModifier(regions[i].modifiers, "hue");
      if m.Some? {
        color := ApplyColorBlend(color, AsColor(m.value.value), m.value.blendMode);
      }
      i := i + 1;
    }
    assert regions[..|regions|] == regions;
  }

  /** `resolveProperties(entity, regions)`: writes the effective gravity and
      colour, and nothing else. */
  method ResolveProperties(e: Entity, sorted: seq<RegionEntry>)
    requires e.Valid()
    modifies e`components
    ensures e.Valid()
    ensures e.components == Resolve(old(e.components), sorted)
  {
    var physics := e.GetComponent(PhysicsKind);
    if physics.Some? && physics.value.Physics? {
      var gravity := FoldGravity(physics.value.baseGravity, sorted);
      e.Replace(physics.value.(effectiveGravity := gravity));
    }
    var mesh := e.GetComponent(MeshKind);
    if mesh.Some? && mesh.value.Mesh? {
      var color := FoldColor(mesh.value.baseColor, sorted);
      e.Replace(mesh.value.(color := color));
    }
  }

  lemma ContainingStep(p: Vec3, rs: seq<RegionEntry>, i: nat)
    requires i < |rs|
    ensures Containing(p, rs[..i + 1]) == Containing(p, rs[..i]) + (if IsInside(p, rs[i].center, rs[i].size) then [rs[i]] else [])
    ensures EntryIds(Containing(p, rs[..i]) + [rs[i]]) == EntryIds(Containing(p, rs[..i])) + [rs[i].entityId]
  {
    assert rs[..i + 1][..i] == rs[..i];
    var c := Containing(p, rs[..i]);
    assert (c + [rs[i]])[..|c|] == c;
  }

  class RegionSystem {
    const level: Level
    /** The region ids each subject was in at its last update. */
    var membership: map<string, seq<string>>

    constructor (level: Level)
      ensures this.level == level && membership == map[]
    {
      this.level := level;
      membership := map[];
    }

    /** Step 1 of `update`: the active entities with a Region and a Transform. */
    method GatherRegions() returns (regions: seq<RegionEntry>)
      requires level.Valid()
      ensures regions == CollectRegions(level.World(), level.ids)
      ensures level.World() == old(level.World())
    {
      regions := [];
      var ids := level.ids;
      var i := 0;
      while i < |ids|
        invariant 0 <= i <= |ids|
        invariant regions == CollectRegions(level.World(), ids[..i])
      {
        assert ids[..i + 1][..i] == ids[..i];
        var e := level.entities[ids[i]];
        if e.state == Active {
          var region := e.GetComponent(RegionKind);
          var transform := e.GetComponent(TransformKind);
          if region.Some? && region.value.Region? && transform.Some? && transform.value.Transform? {
            regions := regions + [RegionEntry(ids[i], region.value.priority, region.value.modifiers, region.value.size, transform.value.position)];
          }
        }
        i := i + 1;
      }
      assert ids[..|ids|] == ids;
    }

    /** The membership part of the loop body for one subject: its containing
        regions, whether that set changed, the cache entry and the events. */
    method Track(id: string, position: Vec3, regions: seq<RegionEntry>) returns (active: seq<RegionEntry>, changed: bool)
      modifies this`membership, level.bus`trace
      ensures active == Containing(position, regions)
      ensures changed == MembershipChanged(Previous(old(membership), id), EntryIds(active))
      ensures membership == old(membership)[id := EntryIds(active)]
      ensures level.bus.trace == old(level.bus.trace) + Dispatch(old(level.bus.listeners), SubjectNotices(id, Previous(old(membership), id), EntryIds(active)), Source)
    {
      var after;
      active, after := FindContaining(position, regions);
      var before := if id in membership then membership[id] else [];
      changed := CompareMembership(before, after);
      ghost var t0 := level.bus.trace;
      ghost var listeners := level.bus.listeners;
      EmitEnters(level.bus, id, before, after);
      EmitExits(level.bus, id, before, after);
      SubjectTrace(t0, listeners, id, before, after);
      membership := membership[id := after];
    }

    /** The loop body for a subject (an active entity with a Transform and no
        Region) whose id is `id` and whose state and components are `b`. */
    method ProcessSubject(e: Entity, id: string, ghost b: Body, position: Vec3, regions: seq<RegionEntry>)
      requires e.Valid() && b == Body(e.state, e.components) && IsSubject(b) && Position(b) == position
      modifies this`membership, level.bus`trace, e`components
      ensures e.Valid() && Body(e.state, e.components) == StepBody(id, b, regions, old(membership))
      ensures membership == StepCache(id, b, regions, old(membership))
      ensures level.bus.trace == old(level.bus.trace) + Dispatch(old(level.bus.listeners), StepNotices(id, b, regions, old(membership)), Source)
    {
      var active, changed := Track(id, position, regions);
      if changed {
        ResolveProperties(e, SortByPriority(active));
      }
    }

    /** One pass of the per-entity loop of `update` on the entity `e` with id
        `id`, whose state and components are `b`: a subject gets its new
        membership, its enter and exit events and, if the membership changed,
        freshly resolved properties; any other entity is skipped. */
    method Process(e: Entity, id: string, ghost b: Body, regions: seq<RegionEntry>)
      requires e.Valid() && b == Body(e.state, e.components)
      modifies this`membership, level.bus`trace, e`components
      ensures e.Valid() && Body(e.state, e.components) == StepBody(id, b, regions, old(membership))
      ensures membership == StepCache(id, b, regions, old(membership))
      ensures level.bus.trace == old(level.bus.trace) + Dispatch(old(level.bus.listeners), StepNotices(id, b, regions, old(membership)), Source)
    {
      if e.state != Active {
        return;
      }
      var transform := e.GetComponent(TransformKind);
      var region := e.GetComponent(RegionKind);
      if transform.Some? && transform.value.Transform? && region.None? {
        ProcessSubject(e, id, b, transform.value.position, regions);
      }
    }

    /** `Process` on the entity stored under `id` in a level whose world is
        `w`: the world changes at that id alone. */
    method ProcessAt(e: Entity, id: string, ghost w: map<string, Body>, regions: seq<RegionEntry>)
      requires level.Valid() && id in level.entities && e == level.entities[id] && w == level.World()
      modifies this`membership, level.bus`trace, e`components
      ensures level.Valid()
      ensures level.World() == w[id := StepBody(id, w[id], regions, old(membership))]
      ensures membership == StepCache(id, w[id], regions, old(membership))
      ensures level.bus.trace == old(level.bus.trace) + Dispatch(old(level.bus.listeners), StepNotices(id, w[id], regions, old(membership)), Source)
    {
      forall k | k in level.entities && k != id ensures level.entities[k] != e {
        assert level.entities[k].id == k;
      }
      assert forall k | k in level.entities :: level.BodyOf(k) == w[k];
      ghost var cache := membership;
      Process(e, id, w[id], regions);
      ghost var w1 := w[id := StepBody(id, w[id], regions, cache)];
      forall k | k in level.entities ensures level.entities[k].Valid() && level.BodyOf(k) == w1[k] {
        if k != id {
          assert level.entities[k] != e;
        }
      }
      level.WorldIs(w1);
    }

    /** What the loop of `update` has done after visiting `ids[..i]`. */
    ghost predicate Progress(ids: seq<string>, i: nat, regions: seq<RegionEntry>, w0: map<string, Body>, m0: map<string, seq<string>>,
                             listeners: map<string, seq<HandlerId>>, t0: seq<Delivery>)
      reads this, level, level.bus, level.entities.Values
      requires i <= |ids|
    {
      ProgressOn(level.World(), membership, level.bus.trace, ids, i, regions, w0, m0, listeners, t0)
    }

    /** The body of the per-entity loop of `update`, for the entity `ids[i]`. */
    method Visit(e: Entity, ids: seq<string>, i: nat, regions: seq<RegionEntry>, ghost w0: map<string, Body>, ghost m0: map<string, seq<string>>,
                 ghost listeners: map<string, seq<HandlerId>>, ghost t0: seq<Delivery>)
      requires level.Valid() && ids == level.ids && i < |ids| && e == level.entities[ids[i]]
      requires level.bus.listeners == listeners
      requires Progress(ids, i, regions, w0, m0, listeners, t0)
      modifies this`membership, level.bus`trace, e`components
      ensures level.Valid()
      ensures Progress(ids, i + 1, regions, w0, m0, listeners, t0)
    {
      ghost var w := level.World();
      ghost var cache := membership;
      ghost var trace := level.bus.trace;
      ProcessAt(e, ids[i], w, regions);
      ProgressStep(w, cache, trace, ids, i, regions, w0, m0, listeners, t0, level.World());
    }

    /** The per-entity loop of `update`: visits every id in order. */
    method VisitLoop(ids: seq<string>, regions: seq<RegionEntry>, ghost w0: map<string, Body>, ghost m0: map<string, seq<string>>,
                     ghost listeners: map<string, seq<HandlerId>>, ghost t0: seq<Delivery>)
      requires level.Valid() && ids == level.ids
      requires level.bus.listeners == listeners
      requires Progress(ids, 0, regions, w0, m0, listeners, t0)
      modifies this`membership, level.bus`trace, level.entities.Values`components
      ensures level.Valid()
      ensures Progress(ids, |ids|, regions, w0, m0, listeners, t0)
    {
      var i := 0;
      while i < |ids|
        invariant 0 <= i <= |ids|
        invariant level.Valid()
        invariant level.bus.listeners == listeners
        invariant Progress(ids, i, regions, w0, m0, listeners, t0)
      {
        Visit(level.entities[ids[i]], ids, i, regions, w0, m0, listeners, t0);
        i := i + 1;
      }
    }

    /** Visiting every id in order amounts to one tick of the level the loop
        started from. */
    method VisitAll(ids: seq<string>, regions: seq<RegionEntry>, ghost w0: map<string, Body>, ghost m0: map<string, seq<string>>,
                    ghost listeners: map<string, seq<HandlerId>>, ghost t0: seq<Delivery>)
      requires level.Valid() && ids == level.ids
      requires level.bus.listeners == listeners
      requires w0 == level.World() && m0 == membership && t0 == level.bus.trace
      requires regions == CollectRegions(w0, ids)
      modifies this`membership, level.bus`trace, level.entities.Values`components
      ensures level.Valid()
      ensures level.World() == TickWorld(w0, ids, m0)
      ensures membership == TickCache(w0, ids, m0)
      ensures level.bus.trace == t0 + Dispatch(listeners, TickNotices(w0, ids, m0), Source)
    {
      assert forall k | k in w0 :: k in ids;
      assert ids[..0] == [];
      VisitLoop(ids, regions, w0, m0, listeners, t0);
      ProgressDone(level.World(), membership, level.bus.trace, ids, regions, w0, m0, listeners, t0);
    }

    /** `update(dt)`: every entity ends as `TickWorld` says, the cache as
        `TickCache` says, and the bus has delivered the events of
        `TickNotices`, in order. The entities' states, component orders and
        hooks, the level's entity set and the listeners are untouched. */
    method Update(dt: real)
      requires level.Valid()
      modifies this`membership, level.bus`trace, level.entities.Values`components
      ensures level.Valid()
      ensures level.World() == TickWorld(old(level.World()), level.ids, old(membership))
      ensures membership == TickCache(old(level.World()), level.ids, old(membership))
      ensures level.bus.trace == old(level.bus.trace) + Dispatch(old(level.bus.listeners), TickNotices(old(level.World()), level.ids, old(membership)), Source)
    {
      var regions := GatherRegions();
      VisitAll(level.ids, regions, level.World(), membership, level.bus.listeners, level.bus.trace);
    }
  }
}
