/** The zAI submission's fixed-step systems, assets/js/systems.js.

    The region system recomputes every active object's effective properties
    from scratch on each update: it folds the property overrides of the
    active regions its node touches, highest priority first. The logic
    system runs every active entity's script, reporting a script that throws
    and going on with the next entity, and then moves an entity that has a
    Movement component by its speed along the pressed keys' axes. The
    transform system's update does nothing.

    The systems hold nothing but the engine, so each update is a procedure
    on the engine's project and levels. Mesh intersection is the library's
    (`intersectsMesh`) and is given as `contact`; a script is opaque code,
    seen through `run`, which says whether the call returned or threw. */
module ZaiSystems {
  import opened Wrappers
  import opened Vectors
  import opened ZaiData
  import opened PrioritySort
  import opened SeqUtil
  import LogicSystems

  type Outcome = LogicSystems.Outcome

  /** `obj.babylonNode.intersectsMesh(reg.babylonNode)`, for the object with
      id and node position `a`, `pa` and the region with `b`, `pb`. */
  type Contact = (string, Vec3, string, Vec3) -> bool

  /** Running the script source `src` on the entity with that id and `dt`. */
  type SourceRunner = (string, string, real) -> Outcome

  /** The product `a * b`, kept as one term so that maps holding products
      compare without arithmetic. */
  function Times(a: real, b: real): real {
    a * b
  }

  /** One override on the effective properties. A key without a truthy
      value (absent, or 0) takes the override's value whatever its mode;
      otherwise `override` replaces, `add` adds, `multiply` multiplies, and
      any other mode leaves the value. */
  function ApplyOverride(eff: map<string, real>, o: Override): map<string, real> {
    if o.key !in eff || eff[o.key] == 0.0 then eff[o.key := o.value]
    else if o.mode == "override" then eff[o.key := o.value]
    else if o.mode == "add" then eff[o.key := eff[o.key] + o.value]
    else if o.mode == "multiply" then eff[o.key := Times(eff[o.key], o.value)]
    else eff
  }

  /** A list of overrides, in order. */
  function ApplyOverrides(eff: map<string, real>, os: seq<Override>): map<string, real> {
    if os == [] then eff else ApplyOverride(ApplyOverrides(eff, os[..|os| - 1]), os[|os| - 1])
  }

  /** What a region contributes: the overrides of its first PropertyOverride
      component, none without one. */
  function OverridesOf(r: View): seq<Override> {
    match GetComponent(r.data.components, PropertyOverrideType)
    case Some(PropertyOverride(os)) => os
    case _ => []
  }

  /** The regions' overrides, region after region. */
  function FoldRegions(eff: map<string, real>, rs: seq<View>): map<string, real> {
    if rs == [] then eff else ApplyOverrides(FoldRegions(eff, rs[..|rs| - 1]), OverridesOf(rs[|rs| - 1]))
  }

  /** Objects are the active entities of type `object`. */
  predicate IsSubject(v: View) {
    v.data.etype == ObjectType && v.data.state == ActiveState
  }

  /** Regions are the active entities of type `region`. */
  predicate IsRegion(v: View) {
    v.data.etype == RegionType && v.data.state == ActiveState
  }

  function Regions(vs: seq<View>): seq<View> {
    if vs == [] then [] else (if IsRegion(vs[0]) then [vs[0]] else []) + Regions(vs[1..])
  }

  /** Both nodes exist and the meshes intersect. */
  predicate Touches(o: View, r: View, contact: Contact) {
    o.node.Some? && r.node.Some? && contact(o.id, o.node.value, r.id, r.node.value)
  }

  /** `regions.filter(...)`: the regions the object touches, in order. */
  function Touching(o: View, rs: seq<View>, contact: Contact): seq<View> {
    if rs == [] then [] else (if Touches(o, rs[0], contact) then [rs[0]] else []) + Touching(o, rs[1..], contact)
  }

  function ByPriority(v: View): real {
    Priority(v.data)
  }

  /** An object's effective properties: from nothing, the touching regions'
      overrides, highest priority first. */
  function Resolve(o: View, rs: seq<View>, contact: Contact): map<string, real> {
    FoldRegions(map[], Sort(Touching(o, rs, contact), ByPriority))
  }

  /** The entity `id` after the region update of its level, whose regions
      are `rs`: an object gets freshly resolved properties, any other entity
      is left as it was. */
  function RegionEntity(p: Project, lv: ZLevel, rs: seq<View>, contact: Contact, id: string): ZEntity
    requires id in lv.entities
  {
    var v := ViewOf(p, lv, id);
    if IsSubject(v) then lv.entities[id].(effective := Resolve(v, rs, contact)) else lv.entities[id]
  }

  /** The region update of one level. */
  function RegionLevel(p: Project, lv: ZLevel, contact: Contact): ZLevel {
    var rs := Regions(Views(p, lv));
    lv.(entities := map id | id in lv.entities :: RegionEntity(p, lv, rs, contact, id))
  }

  /** The region update of every level. */
  function RegionWorld(p: Project, levels: map<string, ZLevel>, contact: Contact): map<string, ZLevel> {
    map id | id in levels :: RegionLevel(p, levels[id], contact)
  }

  /** The entity's speed: the effective `speed` whenever one is defined,
      0 included, else the Movement component's own. */
  function Speed(eff: map<string, real>, base: real): real {
    if "speed" in eff then eff["speed"] else base
  }

  /** W and S move along +z and -z, A and D along -x and +x, each by the
      speed, once per update. */
  function Step(pos: Vec3, speed: real, keys: set<string>): Vec3 {
    var z1 := if "KeyW" in keys then pos.z + speed else pos.z;
    var z2 := if "KeyS" in keys then z1 - speed else z1;
    var x1 := if "KeyA" in keys then pos.x - speed else pos.x;
    var x2 := if "KeyD" in keys then x1 + speed else x1;
    Vec3(x2, pos.y, z2)
  }

  /** The entity `id` after the logic update: an active entity with a
      Movement component and a node is stepped, any other is unchanged. */
  function LogicEntity(p: Project, lv: ZLevel, keys: set<string>, id: string): ZEntity
    requires id in lv.entities
  {
    var d := Record(p, lv, id);
    var e := lv.entities[id];
    if d.state == ActiveState && e.node.Some? then
      match GetComponent(d.components, MovementType)
      case Some(Movement(s)) => e.(node := Some(Step(e.node.value, Speed(e.effective, s), keys)))
      case _ => e
    else e
  }

  function LogicLevel(p: Project, lv: ZLevel, keys: set<string>): ZLevel {
    lv.(entities := map id | id in lv.entities :: LogicEntity(p, lv, keys, id))
  }

  function LogicWorld(p: Project, levels: map<string, ZLevel>, keys: set<string>): map<string, ZLevel> {
    map id | id in levels :: LogicLevel(p, levels[id], keys)
  }

  /** A script call, with the entity's id and name. */
  datatype ScriptCall = ScriptCall(entity: string, name: string, source: string, dt: real, outcome: Outcome)

  /** The call made for one entity: its script's, if it is active and has one. */
  function CallFor(d: EntityData, id: string, dt: real, run: SourceRunner): seq<ScriptCall> {
    if d.state != ActiveState then []
    else
      match GetComponent(d.components, ScriptType)
      case Some(Script(src)) => [ScriptCall(id, d.name, src, dt, run(src, id, dt))]
      case _ => []
  }

  /** The calls of one level's update, over `ids` in order. */
  function LevelCalls(p: Project, lv: ZLevel, ids: seq<string>, dt: real, run: SourceRunner): seq<ScriptCall> {
    if ids == [] then []
    else LevelCalls(p, lv, ids[..|ids| - 1], dt, run) + CallFor(Record(p, lv, ids[|ids| - 1]), ids[|ids| - 1], dt, run)
  }

  /** The calls of one update, level after level in `levelIds` order. */
  function WorldCalls(p: Project, levels: map<string, ZLevel>, levelIds: seq<string>, dt: real, run: SourceRunner): seq<ScriptCall> {
    if levelIds == [] then []
    else
      var id := levelIds[|levelIds| - 1];
      WorldCalls(p, levels, levelIds[..|levelIds| - 1], dt, run) + if id in levels then LevelCalls(p, levels[id], levels[id].ids, dt, run) else []
  }

  /** The names `LOG` reports, one per script that threw. */
  function ErrorNames(calls: seq<ScriptCall>): seq<string> {
    if calls == [] then []
    else ErrorNames(calls[..|calls| - 1]) + if calls[|calls| - 1].outcome == LogicSystems.Fault then [calls[|calls| - 1].name] else []
  }

  /** The levels' ids are distinct, are the Map's keys, and every level's
      own Map is well formed. */
  ghost predicate LevelsWellFormed(levelIds: seq<string>, levels: map<string, ZLevel>) {
    && Distinct(levelIds)
    && (forall id :: id in levels <==> id in levelIds)
    && (forall id | id in levels :: WellFormed(levels[id]))
  }

  /** The innermost `overrides.forEach` of the region update. */
  method ApplyEach(eff0: map<string, real>, os: seq<Override>) returns (eff: map<string, real>)
    ensures eff == ApplyOverrides(eff0, os)
  {
    eff := eff0;
    var k := 0;
    while k < |os|
      invariant 0 <= k <= |os|
      invariant eff == ApplyOverrides(eff0, os[..k])
    {
      var o := os[k];
      assert os[..k + 1][..k] == os[..k];
      assert os[..k + 1][k] == o;
      assert ApplyOverrides(eff0, os[..k + 1]) == ApplyOverride(ApplyOverrides(eff0, os[..k]), o);
      if o.key !in eff || eff[o.key] == 0.0 {
        eff := eff[o.key := o.value];
      } else {
        var current := eff[o.key];
        if o.mode == "override" {
          eff := eff[o.key := o.value];
        } else if o.mode == "add" {
          eff := eff[o.key := current + o.value];
        } else if o.mode == "multiply" {
          eff := eff[o.key := Times(current, o.value)];
        }
      }
      k := k + 1;
    }
    assert os[..k] == os;
  }

  /** The body of `objects.forEach` for the object `obj`: its touching
      regions, sorted, and their overrides folded from nothing. */
  method ResolveFor(obj: View, regions: seq<View>, contact: Contact) returns (eff: map<string, real>)
    ensures eff == Resolve(obj, regions, contact)
  {
    eff := map[];
    var active := Touching(obj, regions, contact);
    var sorted := Sort(active, ByPriority);
    var j := 0;
    while j < |sorted|
      invariant 0 <= j <= |sorted|
      invariant eff == FoldRegions(map[], sorted[..j])
    {
      var overComp := GetComponent(sorted[j].data.components, PropertyOverrideType);
      if overComp.Some? && overComp.value.PropertyOverride? {
        eff := ApplyEach(eff, overComp.value.overrides);
      }
      assert sorted[..j + 1][..j] == sorted[..j];
      j := j + 1;
    }
    assert sorted[..j] == sorted;
  }

  /** The body of `objects.forEach` for the entity of `lv` seen as `v`:
      an object's properties are reset and resolved again. */
  method RegionFor(p: Project, lv: ZLevel, v: View, regions: seq<View>, contact: Contact) returns (e: ZEntity)
    requires v.id in lv.entities && v == ViewOf(p, lv, v.id)
    ensures e == RegionEntity(p, lv, regions, contact, v.id)
  {
    e := lv.entities[v.id];
    if IsSubject(v) {
      var eff := ResolveFor(v, regions, contact);
      e := e.(effective := eff);
    }
  }

  /** The region update of one level: every object's properties are reset
      and resolved again. */
  method UpdateRegionsIn(p: Project, lv: ZLevel, contact: Contact) returns (r: ZLevel)
    requires WellFormed(lv)
    ensures r == RegionLevel(p, lv, contact)
  {
    ghost var target := RegionLevel(p, lv, contact);
    var vs := Views(p, lv);
    var regions := Regions(vs);
    r := lv;
    var i := 0;
    while i < |lv.ids|
      invariant r.slot == lv.slot && r.ids == lv.ids
      invariant UpdatedUpTo(r.entities, lv.entities, target.entities, lv.ids, i)
    {
      var id := lv.ids[i];
      var e := RegionFor(p, lv, vs[i], regions, contact);
      DistinctPrefix(lv.ids, i);
      UpdatedNext(r.entities, lv.entities, target.entities, lv.ids, i);
      r := r.(entities := r.entities[id := e]);
      i := i + 1;
    }
    UpdatedAll(r.entities, lv.entities, target.entities, lv.ids);
  }

  /** `RegionSystem.update`: every level, in the Map's order. */
  method UpdateRegions(p: Project, levelIds: seq<string>, levels: map<string, ZLevel>, contact: Contact) returns (r: map<string, ZLevel>)
    requires LevelsWellFormed(levelIds, levels)
    ensures r == RegionWorld(p, levels, contact)
  {
    ghost var target := RegionWorld(p, levels, contact);
    r := levels;
    var i := 0;
    while i < |levelIds|
      invariant UpdatedUpTo(r, levels, target, levelIds, i)
    {
      var id := levelIds[i];
      DistinctPrefix(levelIds, i);
      var lv := UpdateRegionsIn(p, r[id], contact);
      UpdatedNext(r, levels, target, levelIds, i);
      r := r[id := lv];
      i := i + 1;
    }
    UpdatedAll(r, levels, target, levelIds);
  }

  /** The body of `level.entities.forEach` in the logic update, for the
      entity `id` of `lv`: its script call, if any, and its new state. */
  method LogicFor(p: Project, lv: ZLevel, id: string, dt: real, keys: set<string>, run: SourceRunner) returns (e: ZEntity, calls: seq<ScriptCall>)
    requires id in lv.entities
    ensures e == LogicEntity(p, lv, keys, id)
    ensures calls == CallFor(Record(p, lv, id), id, dt, run)
  {
    var d := Record(p, lv, id);
    e := lv.entities[id];
    calls := [];
    if d.state != ActiveState {
      return;
    }
    var script := GetComponent(d.components, ScriptType);
    if script.Some? && script.value.Script? {
      var outcome := run(script.value.source, id, dt);
      calls := [ScriptCall(id, d.name, script.value.source, dt, outcome)];
    }
    var move := GetComponent(d.components, MovementType);
    if move.Some? && move.value.Movement? && e.node.Some? {
      var speed := if "speed" in e.effective then e.effective["speed"] else move.value.speed;
      var pos := e.node.value;
      if "KeyW" in keys {
        pos := pos.(z := pos.z + speed);
      }
      if "KeyS" in keys {
        pos := pos.(z := pos.z - speed);
      }
      if "KeyA" in keys {
        pos := pos.(x := pos.x - speed);
      }
      if "KeyD" in keys {
        pos := pos.(x := pos.x + speed);
      }
      e := e.(node := Some(pos));
    }
  }

  /** The logic update of one level. */
  method UpdateLogicIn(p: Project, lv: ZLevel, dt: real, keys: set<string>, run: SourceRunner) returns (r: ZLevel, calls: seq<ScriptCall>)
    requires WellFormed(lv)
    ensures r == LogicLevel(p, lv, keys)
    ensures calls == LevelCalls(p, lv, lv.ids, dt, run)
  {
    ghost var target := LogicLevel(p, lv, keys);
    r := lv;
    calls := [];
    var i := 0;
    while i < |lv.ids|
      invariant r.slot == lv.slot && r.ids == lv.ids
      invariant UpdatedUpTo(r.entities, lv.entities, target.entities, lv.ids, i)
      invariant calls == LevelCalls(p, lv, lv.ids[..i], dt, run)
    {
      var id := lv.ids[i];
      var e, c := LogicFor(p, lv, id, dt, keys, run);
      DistinctPrefix(lv.ids, i);
      UpdatedNext(r.entities, lv.entities, target.entities, lv.ids, i);
      r := r.(entities := r.entities[id := e]);
      assert lv.ids[..i + 1][..i] == lv.ids[..i];
      calls := calls + c;
      i := i + 1;
    }
    UpdatedAll(r.entities, lv.entities, target.entities, lv.ids);
    assert lv.ids[..i] == lv.ids;
  }

  /** `LogicSystem.update`: every level, in the Map's order. */
  method UpdateLogic(p: Project, levelIds: seq<string>, levels: map<string, ZLevel>, dt: real, keys: set<string>, run: SourceRunner)
    returns (r: map<string, ZLevel>, calls: seq<ScriptCall>)
    requires LevelsWellFormed(levelIds, levels)
    ensures r == LogicWorld(p, levels, keys)
    ensures calls == WorldCalls(p, levels, levelIds, dt, run)
  {
    ghost var target := LogicWorld(p, levels, keys);
    r := levels;
    calls := [];
    var i := 0;
    while i < |levelIds|
      invariant UpdatedUpTo(r, levels, target, levelIds, i)
      invariant calls == WorldCalls(p, levels, levelIds[..i], dt, run)
    {
      var id := levelIds[i];
      DistinctPrefix(levelIds, i);
      var lv, c := UpdateLogicIn(p, r[id], dt, keys, run);
      UpdatedNext(r, levels, target, levelIds, i);
      r := r[id := lv];
      assert levelIds[..i + 1][..i] == levelIds[..i];
      calls := calls + c;
      i := i + 1;
    }
    UpdatedAll(r, levels, target, levelIds);
    assert levelIds[..i] == levelIds;
  }

  // ---- Properties of the region update ----

  /** What one override does to each key: only its own key changes; a key
      with no truthy value takes the override's value whatever the mode, so
      `multiply` on a missing or 0 value stores the factor itself; on a truthy
      value each mode does its arithmetic and an unknown mode does nothing. */
  lemma ApplyOverrideCases(eff: map<string, real>, o: Override)
    ensures var r := ApplyOverride(eff, o);
      && r.Keys == eff.Keys + {o.key}
      && (forall k | k in eff && k != o.key :: r[k] == eff[k])
      && ((o.key !in eff || eff[o.key] == 0.0) ==> r[o.key] == o.value)
      && (o.key in eff && eff[o.key] != 0.0 ==>
            r[o.key] == if o.mode == "override" then o.value
                        else if o.mode == "add" then eff[o.key] + o.value
                        else if o.mode == "multiply" then eff[o.key] * o.value
                        else eff[o.key])
  {
  }

  /** The keys a list of overrides names. */
  function KeysOf(os: seq<Override>): set<string> {
    if os == [] then {} else KeysOf(os[..|os| - 1]) + {os[|os| - 1].key}
  }

  /** Folding a list of overrides adds exactly their keys. */
  lemma {:induction false} ApplyOverridesKeys(eff: map<string, real>, os: seq<Override>)
    ensures ApplyOverrides(eff, os).Keys == eff.Keys + KeysOf(os)
  {
    if os != [] {
      ApplyOverridesKeys(eff, os[..|os| - 1]);
    }
  }

  /** The regions that contribute something. */
  function Contributing(rs: seq<View>): seq<View> {
    if rs == [] then []
    else Contributing(rs[..|rs| - 1]) + if OverridesOf(rs[|rs| - 1]) != [] then [rs[|rs| - 1]] else []
  }

  /** A region without a PropertyOverride component, or with an empty one,
      leaves the fold as it was. */
  lemma {:induction false} OnlyContributingRegionsCount(eff: map<string, real>, rs: seq<View>)
    ensures FoldRegions(eff, rs) == FoldRegions(eff, Contributing(rs))
  {
    if rs != [] {
      var init := rs[..|rs| - 1];
      var last := rs[|rs| - 1];
      OnlyContributingRegionsCount(eff, init);
      if OverridesOf(last) != [] {
        var c := Contributing(init) + [last];
        assert c[..|c| - 1] == Contributing(init);
      } else {
        assert Contributing(rs) == Contributing(init);
      }
    }
  }

  /** `Touching` keeps exactly the regions the object touches. */
  lemma {:induction false} TouchingExactly(o: View, rs: seq<View>, contact: Contact)
    ensures forall v :: v in Touching(o, rs, contact) <==> v in rs && Touches(o, v, contact)
  {
    if rs != [] {
      TouchingExactly(o, rs[1..], contact);
      assert rs == [rs[0]] + rs[1..];
    }
  }

  /** `Regions` keeps exactly the active regions. */
  lemma {:induction false} RegionsExactly(vs: seq<View>)
    ensures forall v :: v in Regions(vs) <==> v in vs && IsRegion(v)
  {
    if vs != [] {
      RegionsExactly(vs[1..]);
      assert vs == [vs[0]] + vs[1..];
    }
  }

  /** The order the overrides are folded in: every touching region once,
      highest priority first, and regions of equal priority in the level's
      order. */
  lemma ResolveOrder(o: View, rs: seq<View>, contact: Contact, p: real)
    ensures var t := Touching(o, rs, contact);
      && Descending(Sort(t, ByPriority), ByPriority)
      && multiset(Sort(t, ByPriority)) == multiset(t)
      && WithPriority(Sort(t, ByPriority), ByPriority, p) == WithPriority(t, ByPriority, p)
  {
    SortIsStable(Touching(o, rs, contact), ByPriority, p);
  }

  /** Highest priority first means the last writer is the lowest: of two
      touching regions that both override the same key, the one with the
      lower priority decides its value. */
  lemma LowestPriorityOverrideWins(o: View, rs: seq<View>, contact: Contact, hi: View, lo: View, k: string, vh: real, vl: real)
    requires Touching(o, rs, contact) == [hi, lo] || Touching(o, rs, contact) == [lo, hi]
    requires Priority(hi.data) > Priority(lo.data)
    requires OverridesOf(hi) == [Override(k, vh, "override")] && OverridesOf(lo) == [Override(k, vl, "override")]
    ensures k in Resolve(o, rs, contact) && Resolve(o, rs, contact)[k] == vl
  {
    var t := Touching(o, rs, contact);
    SortPair(t[0], t[1], ByPriority);
    assert t == [t[0], t[1]];
    var sorted := Sort(t, ByPriority);
    assert sorted == [hi, lo];
    FoldNext(map[], [], hi);
    FoldNext(map[], [hi], lo);
    ApplySingle(map[], Override(k, vh, "override"));
    ApplySingle(FoldRegions(map[], [hi]), Override(k, vl, "override"));
    assert [] + [hi] == [hi] && [hi] + [lo] == sorted;
  }

  lemma FoldNext(eff: map<string, real>, rs: seq<View>, r: View)
    ensures FoldRegions(eff, rs + [r]) == ApplyOverrides(FoldRegions(eff, rs), OverridesOf(r))
  {
    assert (rs + [r])[..|rs|] == rs;
  }

  lemma ApplySingle(eff: map<string, real>, o: Override)
    ensures ApplyOverrides(eff, [o]) == ApplyOverride(eff, o)
  {
    assert [o][..0] == [];
  }

  /** Two levels that differ only in their entities' effective properties. */
  ghost predicate SameScene(lv1: ZLevel, lv2: ZLevel) {
    && lv1.slot == lv2.slot && lv1.ids == lv2.ids && lv1.entities.Keys == lv2.entities.Keys
    && forall id | id in lv1.entities ::
         lv1.entities[id].slot == lv2.entities[id].slot && lv1.entities[id].node == lv2.entities[id].node
  }

  /** Such levels look the same to the systems. */
  lemma SameSceneSameViews(p: Project, lv1: ZLevel, lv2: ZLevel)
    requires SameScene(lv1, lv2)
    ensures forall id :: ViewOf(p, lv1, id) == ViewOf(p, lv2, id)
    ensures Views(p, lv1) == Views(p, lv2)
  {
    forall id
      ensures ViewOf(p, lv1, id) == ViewOf(p, lv2, id)
    {
    }
  }

  /** Nothing is remembered between updates: the properties resolved for an
      object do not depend on the properties it had before. */
  lemma ResolveForgetsPast(p: Project, lv1: ZLevel, lv2: ZLevel, contact: Contact)
    requires SameScene(lv1, lv2)
    ensures forall id | id in lv1.entities && IsSubject(ViewOf(p, lv1, id)) ::
      RegionLevel(p, lv1, contact).entities[id].effective == RegionLevel(p, lv2, contact).entities[id].effective
  {
    SameSceneSameViews(p, lv1, lv2);
  }

  /** The region update touches nothing but objects' effective properties:
      every entity keeps its record and its node. */
  lemma RegionUpdateFrame(p: Project, lv: ZLevel, contact: Contact)
    ensures SameScene(lv, RegionLevel(p, lv, contact))
    ensures forall id | id in lv.entities && !IsSubject(ViewOf(p, lv, id)) ::
      RegionLevel(p, lv, contact).entities[id] == lv.entities[id]
  {
  }

  /** Running the region update twice in a row is running it once. */
  lemma RegionUpdateIdempotent(p: Project, lv: ZLevel, contact: Contact)
    ensures RegionLevel(p, RegionLevel(p, lv, contact), contact) == RegionLevel(p, lv, contact)
  {
    var r1 := RegionLevel(p, lv, contact);
    var r2 := RegionLevel(p, r1, contact);
    RegionUpdateFrame(p, lv, contact);
    SameSceneSameViews(p, lv, r1);
    var rs := Regions(Views(p, lv));
    forall id | id in r1.entities
      ensures r2.entities[id] == r1.entities[id]
    {
      assert r2.entities[id] == RegionEntity(p, r1, rs, contact, id);
      assert r1.entities[id] == RegionEntity(p, lv, rs, contact, id);
    }
  }

  // ---- Properties of the logic update ----

  function CallIds(calls: seq<ScriptCall>): (r: seq<string>)
    ensures |r| == |calls|
    ensures forall i | 0 <= i < |calls| :: r[i] == calls[i].entity
  {
    if calls == [] then [] else CallIds(calls[..|calls| - 1]) + [calls[|calls| - 1].entity]
  }

  /** An entity is scripted when it is active and has a Script component. */
  predicate Scripted(d: EntityData) {
    d.state == ActiveState && match GetComponent(d.components, ScriptType) case Some(Script(_)) => true case _ => false
  }

  /** The scripted ids among `ids`, in order. */
  function ScriptedIds(p: Project, lv: ZLevel, ids: seq<string>): seq<string> {
    if ids == [] then []
    else ScriptedIds(p, lv, ids[..|ids| - 1]) + if Scripted(Record(p, lv, ids[|ids| - 1])) then [ids[|ids| - 1]] else []
  }

  lemma CallIdsAppend(a: seq<ScriptCall>, b: seq<ScriptCall>)
    ensures CallIds(a + b) == CallIds(a) + CallIds(b)
  {
  }

  /** One script call per scripted entity, in the level's order, whatever
      the scripts do: a script that throws does not stop the others. */
  lemma {:induction false} CallsFollowScripts(p: Project, lv: ZLevel, ids: seq<string>, dt: real, run: SourceRunner)
    ensures CallIds(LevelCalls(p, lv, ids, dt, run)) == ScriptedIds(p, lv, ids)
  {
    if ids != [] {
      var init := ids[..|ids| - 1];
      CallsFollowScripts(p, lv, init, dt, run);
      CallIdsAppend(LevelCalls(p, lv, init, dt, run), CallFor(Record(p, lv, ids[|ids| - 1]), ids[|ids| - 1], dt, run));
    }
  }

  /** Every call runs the entity's own script source with the update's dt,
      and its outcome is the script's. */
  lemma {:induction false} CallsRunTheirScripts(p: Project, lv: ZLevel, ids: seq<string>, dt: real, run: SourceRunner)
    ensures forall c | c in LevelCalls(p, lv, ids, dt, run) ::
      && Scripted(Record(p, lv, c.entity))
      && GetComponent(Record(p, lv, c.entity).components, ScriptType) == Some(Script(c.source))
      && c.name == Record(p, lv, c.entity).name && c.dt == dt && c.outcome == run(c.source, c.entity, dt)
  {
    if ids != [] {
      CallsRunTheirScripts(p, lv, ids[..|ids| - 1], dt, run);
    }
  }

  /** Exactly the names of the entities whose script threw are logged. */
  lemma {:induction false} ErrorNamesExactly(calls: seq<ScriptCall>)
    ensures forall n :: n in ErrorNames(calls) <==> exists i | 0 <= i < |calls| :: calls[i].name == n && calls[i].outcome == LogicSystems.Fault
  {
    if calls != [] {
      var init := calls[..|calls| - 1];
      ErrorNamesExactly(init);
      forall n ensures n in ErrorNames(calls) <==> exists i | 0 <= i < |calls| :: calls[i].name == n && calls[i].outcome == LogicSystems.Fault {
        if exists i | 0 <= i < |calls| :: calls[i].name == n && calls[i].outcome == LogicSystems.Fault {
          var i :| 0 <= i < |calls| && calls[i].name == n && calls[i].outcome == LogicSystems.Fault;
          if i < |calls| - 1 {
            assert init[i] == calls[i];
          }
        }
      }
    }
  }

  /** A step along the pressed keys: the height never changes, opposite
      keys cancel, and a single key moves by the speed along its axis. */
  lemma StepAlongKeys(pos: Vec3, speed: real, keys: set<string>)
    ensures var r := Step(pos, speed, keys);
      && r.y == pos.y
      && (("KeyW" in keys <==> "KeyS" in keys) ==> r.z == pos.z)
      && ("KeyW" in keys && "KeyS" !in keys ==> r.z == pos.z + speed)
      && ("KeyS" in keys && "KeyW" !in keys ==> r.z == pos.z - speed)
      && (("KeyA" in keys <==> "KeyD" in keys) ==> r.x == pos.x)
      && ("KeyD" in keys && "KeyA" !in keys ==> r.x == pos.x + speed)
      && ("KeyA" in keys && "KeyD" !in keys ==> r.x == pos.x - speed)
  {
  }

  /** The logic update moves nodes and nothing else; an entity moves only
      when it is active and has a Movement component, and an effective
      `speed` replaces the component's own even when it is 0. */
  lemma LogicUpdateMovesOnly(p: Project, lv: ZLevel, keys: set<string>)
    ensures var r := LogicLevel(p, lv, keys);
      && r.slot == lv.slot && r.ids == lv.ids && r.entities.Keys == lv.entities.Keys
      && forall id | id in lv.entities ::
        && r.entities[id].slot == lv.entities[id].slot
        && r.entities[id].effective == lv.entities[id].effective
        && (r.entities[id].node != lv.entities[id].node ==>
              && Record(p, lv, id).state == ActiveState
              && lv.entities[id].node.Some?
              && exists s :: GetComponent(Record(p, lv, id).components, MovementType) == Some(Movement(s))
                   && r.entities[id].node == Some(Step(lv.entities[id].node.value, Speed(lv.entities[id].effective, s), keys)))
  {
  }
}
