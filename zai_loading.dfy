/** Building the zAI runtime levels from a project, and marking records
    active.

    `loadProject` (assets/js/engine.js) builds one `Level` per level record
    and puts it in the engine's `levels` Map under the record's id; a `Level`
    (assets/js/level.js) builds one `Entity` per entity record into its own
    `entities` Map; an `Entity` (assets/js/entity.js) reads its Transform to
    place its scene node, and throws when it has none, which ends the load
    there. `initializeEntities` writes `state = "active"` into the record
    every runtime entity points at. */
module ZaiLoading {
  import opened Wrappers
  import opened Vectors
  import opened SeqUtil
  import opened ZaiData
  import opened ZaiSystems

  /** The Transform's position, if the record has a Transform. */
  function TransformOf(d: EntityData): Option<Vec3> {
    match GetComponent(d.components, TransformType)
    case Some(Transform(pos)) => Some(pos)
    case _ => None
  }

  /** The types that get a scene node. */
  predicate HasNode(d: EntityData) {
    d.etype == ObjectType || d.etype == RegionType || d.etype == InstanceType
  }

  /** `new Entity(level, data)` for the record at `slot`: nothing, for the
      exception, without a Transform; otherwise no effective properties yet,
      and a node at the Transform's position for the types that have one. */
  function NewEntity(d: EntityData, slot: nat): Option<ZEntity> {
    match TransformOf(d)
    case None => None
    case Some(pos) => Some(ZEntity(slot, map[], if HasNode(d) then Some(pos) else None))
  }

  /** `entities.set(id, e)`. */
  function SetEntity(lv: ZLevel, id: string, e: ZEntity): ZLevel {
    lv.(ids := SetOrder(lv.ids, lv.entities, id), entities := lv.entities[id := e])
  }

  /** `new Level(engine, data)` for the level record at `slot`, after its
      first `n` entity records: nothing once one of them threw. */
  function BuildLevel(slot: nat, es: seq<EntityData>, n: nat): Option<ZLevel>
    requires n <= |es|
  {
    if n == 0 then Some(ZLevel(slot, [], map[]))
    else
      match BuildLevel(slot, es, n - 1)
      case None => None
      case Some(lv) =>
        match NewEntity(es[n - 1], n - 1)
        case None => None
        case Some(e) => Some(SetEntity(lv, es[n - 1].id, e))
  }

  /** The engine's `levels` Map, as ids in insertion order and the level per
      id, and whether the load ran to the end. */
  datatype Loaded = Loaded(ids: seq<string>, levels: map<string, ZLevel>, ok: bool)

  /** `loadProject`'s `project.levels.forEach`, after the first `n` level
      records: a level that throws stops the load, and the levels set
      before it stay. */
  function LoadLevels(p: Project, n: nat): Loaded
    requires n <= |p.levels|
  {
    if n == 0 then Loaded([], map[], true)
    else
      var l := LoadLevels(p, n - 1);
      if !l.ok then l
      else
        match BuildLevel(n - 1, p.levels[n - 1].entities, |p.levels[n - 1].entities|)
        case None => l.(ok := false)
        case Some(lv) => Loaded(SetOrder(l.ids, l.levels, p.levels[n - 1].id), l.levels[p.levels[n - 1].id := lv], true)
  }

  /** The whole load. */
  function Load(p: Project): Loaded {
    LoadLevels(p, |p.levels|)
  }

  /** What the engine holds is consistent with its project: the Map of
      levels is well formed and every runtime entity's record exists. */
  ghost predicate Fits(p: Project, levelIds: seq<string>, levels: map<string, ZLevel>) {
    LevelsWellFormed(levelIds, levels) && forall id | id in levels :: Wired(p, levels[id])
  }

  lemma {:induction false} BuildNoneSticks(slot: nat, es: seq<EntityData>, m: nat, n: nat)
    requires m <= n <= |es| && BuildLevel(slot, es, m).None?
    ensures BuildLevel(slot, es, n).None?
  {
    if n > m {
      BuildNoneSticks(slot, es, m, n - 1);
    }
  }

  lemma {:induction false} FailureSticks(p: Project, m: nat, n: nat)
    requires m <= n <= |p.levels| && !LoadLevels(p, m).ok
    ensures LoadLevels(p, n) == LoadLevels(p, m)
  {
    if n > m {
      FailureSticks(p, m, n - 1);
    }
  }

  /** A level builds exactly when each of its records has a Transform. */
  lemma {:induction false} BuildLevelSucceeds(slot: nat, es: seq<EntityData>, n: nat)
    requires n <= |es|
    ensures BuildLevel(slot, es, n).Some? <==> forall i | 0 <= i < n :: TransformOf(es[i]).Some?
  {
    if n > 0 {
      BuildLevelSucceeds(slot, es, n - 1);
    }
  }

  /** The ids of the first `n` entity records. */
  function IdsOf(es: seq<EntityData>, n: nat): set<string>
    requires n <= |es|
  {
    if n == 0 then {} else IdsOf(es, n - 1) + {es[n - 1].id}
  }

  /** A built level's Map is well formed and holds exactly the records' ids. */
  lemma {:induction false} BuildLevelKeys(slot: nat, es: seq<EntityData>, n: nat)
    requires n <= |es| && BuildLevel(slot, es, n).Some?
    ensures var lv := BuildLevel(slot, es, n).value;
      lv.slot == slot && WellFormed(lv) && lv.entities.Keys == IdsOf(es, n)
  {
    if n > 0 {
      BuildLevelKeys(slot, es, n - 1);
      var lv := BuildLevel(slot, es, n - 1).value;
      SetOrderKeepsKeys(lv.ids, lv.entities, es[n - 1].id, NewEntity(es[n - 1], n - 1).value);
    }
  }

  /** Each id holds the entity built from the last record carrying it. */
  lemma {:induction false} BuildLevelSlots(slot: nat, es: seq<EntityData>, n: nat, lv: ZLevel)
    requires n <= |es| && BuildLevel(slot, es, n) == Some(lv)
    ensures forall id | id in lv.entities :: lv.entities[id].slot < n && es[lv.entities[id].slot].id == id
    ensures forall id, j | id in lv.entities && lv.entities[id].slot < j < n :: es[j].id != id
    ensures forall id | id in lv.entities ::
      lv.entities[id].slot < n && NewEntity(es[lv.entities[id].slot], lv.entities[id].slot) == Some(lv.entities[id])
  {
    if n > 0 {
      var prev := BuildLevel(slot, es, n - 1).value;
      BuildLevelSlots(slot, es, n - 1, prev);
      var nid := es[n - 1].id;
      assert lv.entities == prev.entities[nid := NewEntity(es[n - 1], n - 1).value];
      forall id | id in lv.entities && id != nid
        ensures lv.entities[id] == prev.entities[id]
      {
      }
      forall id, j | id in lv.entities && lv.entities[id].slot < j < n
        ensures es[j].id != id
      {
        if id != nid && j < n - 1 {
          assert prev.entities[id].slot < j < n - 1;
        }
      }
    }
  }

  /** The load runs to the end exactly when every level builds. */
  lemma {:induction false} LoadLevelsSucceeds(p: Project, n: nat)
    requires n <= |p.levels|
    ensures LoadLevels(p, n).ok <==> forall i | 0 <= i < n :: BuildLevel(i, p.levels[i].entities, |p.levels[i].entities|).Some?
  {
    if n > 0 {
      LoadLevelsSucceeds(p, n - 1);
    }
  }

  /** The ids of the first `n` level records. */
  function LevelIdsOf(p: Project, n: nat): set<string>
    requires n <= |p.levels|
  {
    if n == 0 then {} else LevelIdsOf(p, n - 1) + {p.levels[n - 1].id}
  }

  /** The Map holds only the records' level ids, all of them after a
      complete load. */
  lemma {:induction false} LoadLevelsKeys(p: Project, n: nat)
    requires n <= |p.levels|
    ensures LoadLevels(p, n).levels.Keys <= LevelIdsOf(p, n)
    ensures LoadLevels(p, n).ok ==> LoadLevels(p, n).levels.Keys == LevelIdsOf(p, n)
  {
    if n > 0 {
      LoadLevelsKeys(p, n - 1);
    }
  }

  /** Each level is the one built from the last record with its id. */
  lemma {:induction false} LoadLevelsSlots(p: Project, n: nat, l: Loaded)
    requires n <= |p.levels| && l == LoadLevels(p, n)
    ensures forall id | id in l.levels :: l.levels[id].slot < n && p.levels[l.levels[id].slot].id == id
    ensures forall id | id in l.levels && l.ok :: forall j | l.levels[id].slot < j < n :: p.levels[j].id != id
    ensures forall id | id in l.levels ::
      l.levels[id].slot < n && Some(l.levels[id]) == BuildLevel(l.levels[id].slot, p.levels[l.levels[id].slot].entities, |p.levels[l.levels[id].slot].entities|)
  {
    if n > 0 {
      var es := p.levels[n - 1].entities;
      var prev := LoadLevels(p, n - 1);
      LoadLevelsSlots(p, n - 1, prev);
      if prev.ok && BuildLevel(n - 1, es, |es|).Some? {
        var lv := BuildLevel(n - 1, es, |es|).value;
        var nid := p.levels[n - 1].id;
        BuildLevelKeys(n - 1, es, |es|);
        assert l.levels == prev.levels[nid := lv];
        forall id | id in l.levels
          ensures l.levels[id].slot < n && p.levels[l.levels[id].slot].id == id
          ensures Some(l.levels[id]) == BuildLevel(l.levels[id].slot, p.levels[l.levels[id].slot].entities, |p.levels[l.levels[id].slot].entities|)
        {
          if id != nid {
            assert l.levels[id] == prev.levels[id];
          }
        }
        forall id, j | id in l.levels && l.levels[id].slot < j < n
          ensures p.levels[j].id != id
        {
          if id != nid {
            assert l.levels[id] == prev.levels[id];
            if j < n - 1 {
              assert prev.levels[id].slot < j < n - 1;
            }
          }
        }
      } else {
        assert l.levels == prev.levels && !l.ok;
      }
    }
  }

  /** What a load leaves fits the project. */
  lemma {:induction false} LoadLevelsFit(p: Project, n: nat)
    requires n <= |p.levels|
    ensures Fits(p, LoadLevels(p, n).ids, LoadLevels(p, n).levels)
  {
    if n > 0 {
      LoadLevelsFit(p, n - 1);
      var l := LoadLevels(p, n - 1);
      var es := p.levels[n - 1].entities;
      if l.ok && BuildLevel(n - 1, es, |es|).Some? {
        var lv := BuildLevel(n - 1, es, |es|).value;
        BuildLevelKeys(n - 1, es, |es|);
        BuildLevelSlots(n - 1, es, |es|, lv);
        SetOrderKeepsKeys(l.ids, l.levels, p.levels[n - 1].id, lv);
      }
    }
  }

  /** `new Level(engine, data)` for the level record at `slot`. */
  method NewLevel(slot: nat, es: seq<EntityData>) returns (r: Option<ZLevel>)
    ensures r == BuildLevel(slot, es, |es|)
  {
    var lv := ZLevel(slot, [], map[]);
    var i := 0;
    while i < |es|
      invariant 0 <= i <= |es|
      invariant BuildLevel(slot, es, i) == Some(lv)
    {
      var d := es[i];
      var tf := GetComponent(d.components, TransformType);
      if !(tf.Some? && tf.value.Transform?) {
        BuildNoneSticks(slot, es, i + 1, |es|);
        return None;
      }
      var node := if d.etype == ObjectType || d.etype == RegionType || d.etype == InstanceType then Some(tf.value.position) else None;
      var e := ZEntity(i, map[], node);
      if d.id !in lv.entities {
        lv := lv.(ids := lv.ids + [d.id]);
      }
      lv := lv.(entities := lv.entities[d.id := e]);
      i := i + 1;
    }
    return Some(lv);
  }

  /** The body of `loadProject` after the old levels are gone: the new
      levels, level record by level record, until one throws. */
  method LoadAll(p: Project) returns (r: Loaded)
    ensures r == Load(p)
  {
    r := Loaded([], map[], true);
    var i := 0;
    while i < |p.levels|
      invariant 0 <= i <= |p.levels|
      invariant r == LoadLevels(p, i) && r.ok
    {
      var lvlData := p.levels[i];
      var level := NewLevel(i, lvlData.entities);
      if level.None? {
        r := r.(ok := false);
        FailureSticks(p, i + 1, |p.levels|);
        return;
      }
      if lvlData.id !in r.levels {
        r := r.(ids := r.ids + [lvlData.id]);
      }
      r := r.(levels := r.levels[lvlData.id := level.value]);
      i := i + 1;
    }
  }

  // ---- initializeEntities ----

  /** The record at `(l, i)` with the state `st`. */
  function SetState(p: Project, l: nat, i: nat, st: string): Project
    requires l < |p.levels| && i < |p.levels[l].entities|
  {
    p.(levels := p.levels[l := p.levels[l].(entities := p.levels[l].entities[i := p.levels[l].entities[i].(state := st)])])
  }

  /** The project with the state `st` written into every record whose
      place is in `t`. */
  function Mark(p: Project, t: set<(nat, nat)>, st: string): Project {
    Project(seq(|p.levels|, l requires 0 <= l < |p.levels| =>
      p.levels[l].(entities := seq(|p.levels[l].entities|, i requires 0 <= i < |p.levels[l].entities| =>
        if (l, i) in t then p.levels[l].entities[i].(state := st) else p.levels[l].entities[i]))))
  }

  /** The places of the records the entities `ids` of `lv` point at. */
  function LevelTargets(lv: ZLevel, ids: seq<string>): set<(nat, nat)> {
    if ids == [] then {}
    else
      var id := ids[|ids| - 1];
      LevelTargets(lv, ids[..|ids| - 1]) + if id in lv.entities then {(lv.slot, lv.entities[id].slot)} else {}
  }

  /** The places of the records the levels `levelIds` point at. */
  function Targets(levelIds: seq<string>, levels: map<string, ZLevel>): set<(nat, nat)> {
    if levelIds == [] then {}
    else
      var id := levelIds[|levelIds| - 1];
      Targets(levelIds[..|levelIds| - 1], levels) + if id in levels then LevelTargets(levels[id], levels[id].ids) else {}
  }

  lemma MarkNothing(p: Project, st: string)
    ensures Mark(p, {}, st) == p
  {
    forall l | 0 <= l < |p.levels|
      ensures Mark(p, {}, st).levels[l] == p.levels[l]
    {
      assert Mark(p, {}, st).levels[l].entities == p.levels[l].entities;
    }
  }

  /** Writing one more record is marking one more place. */
  lemma MarkOneMore(p: Project, t: set<(nat, nat)>, l: nat, i: nat, st: string)
    requires l < |p.levels| && i < |p.levels[l].entities|
    ensures SetState(Mark(p, t, st), l, i, st) == Mark(p, t + {(l, i)}, st)
  {
    var a := SetState(Mark(p, t, st), l, i, st);
    var b := Mark(p, t + {(l, i)}, st);
    forall k | 0 <= k < |p.levels|
      ensures a.levels[k] == b.levels[k]
    {
      assert a.levels[k].entities == b.levels[k].entities;
    }
  }

  /** Marking changes states only: the levels and records keep their
      number, ids, names, types and components, and a record's state is `st`
      exactly where it was marked. */
  lemma MarkChangesStatesOnly(p: Project, t: set<(nat, nat)>, st: string)
    ensures var q := Mark(p, t, st);
      && |q.levels| == |p.levels|
      && forall l | 0 <= l < |p.levels| ::
        && q.levels[l].id == p.levels[l].id && |q.levels[l].entities| == |p.levels[l].entities|
        && forall i | 0 <= i < |p.levels[l].entities| ::
          && q.levels[l].entities[i] == p.levels[l].entities[i].(state := q.levels[l].entities[i].state)
          && q.levels[l].entities[i].state == if (l, i) in t then st else p.levels[l].entities[i].state
  {
  }

  /** Marking keeps every runtime entity's record in place. */
  lemma MarkKeepsFit(p: Project, t: set<(nat, nat)>, st: string, levelIds: seq<string>, levels: map<string, ZLevel>)
    requires Fits(p, levelIds, levels)
    ensures Fits(Mark(p, t, st), levelIds, levels)
  {
  }

  /** The places marked are exactly those some runtime entity points at. */
  lemma {:induction false} LevelTargetsExactly(lv: ZLevel, ids: seq<string>)
    ensures forall l, i :: (l, i) in LevelTargets(lv, ids) <==>
      exists k | 0 <= k < |ids| :: ids[k] in lv.entities && l == lv.slot && i == lv.entities[ids[k]].slot
  {
    if ids != [] {
      var init := ids[..|ids| - 1];
      LevelTargetsExactly(lv, init);
      forall l, i | (l, i) in LevelTargets(lv, ids)
        ensures exists k | 0 <= k < |ids| :: ids[k] in lv.entities && l == lv.slot && i == lv.entities[ids[k]].slot
      {
        if (l, i) in LevelTargets(lv, init) {
          var k :| 0 <= k < |init| && init[k] in lv.entities && l == lv.slot && i == lv.entities[init[k]].slot;
          assert ids[k] == init[k];
        }
      }
      forall l, i, k | 0 <= k < |ids| && ids[k] in lv.entities && l == lv.slot && i == lv.entities[ids[k]].slot
        ensures (l, i) in LevelTargets(lv, ids)
      {
        if k < |init| {
          assert init[k] == ids[k];
        }
      }
    }
  }

  /** The places marked over all levels are those of some level's entities. */
  lemma {:induction false} TargetsExactly(levelIds: seq<string>, levels: map<string, ZLevel>)
    ensures forall l, i :: (l, i) in Targets(levelIds, levels) <==>
      exists k | 0 <= k < |levelIds| :: levelIds[k] in levels && (l, i) in LevelTargets(levels[levelIds[k]], levels[levelIds[k]].ids)
  {
    if levelIds != [] {
      var init := levelIds[..|levelIds| - 1];
      TargetsExactly(init, levels);
      forall l, i | (l, i) in Targets(levelIds, levels)
        ensures exists k | 0 <= k < |levelIds| :: levelIds[k] in levels && (l, i) in LevelTargets(levels[levelIds[k]], levels[levelIds[k]].ids)
      {
        if (l, i) in Targets(init, levels) {
          var k :| 0 <= k < |init| && init[k] in levels && (l, i) in LevelTargets(levels[init[k]], levels[init[k]].ids);
          assert levelIds[k] == init[k];
        }
      }
      forall l, i, k | 0 <= k < |levelIds| && levelIds[k] in levels && (l, i) in LevelTargets(levels[levelIds[k]], levels[levelIds[k]].ids)
        ensures (l, i) in Targets(levelIds, levels)
      {
        if k < |init| {
          assert init[k] == levelIds[k];
        }
      }
    }
  }

  /** `initializeEntities` on one level, from a project already marked at `t`. */
  method InitializeLevel(p: Project, lv: ZLevel, ghost p0: Project, ghost t: set<(nat, nat)>) returns (r: Project)
    requires p == Mark(p0, t, ActiveState) && Wired(p0, lv) && WellFormed(lv)
    ensures r == Mark(p0, t + LevelTargets(lv, lv.ids), ActiveState)
  {
    r := p;
    var j := 0;
    assert lv.ids[..0] == [];
    assert t + LevelTargets(lv, lv.ids[..0]) == t;
    while j < |lv.ids|
      invariant 0 <= j <= |lv.ids|
      invariant r == Mark(p0, t + LevelTargets(lv, lv.ids[..j]), ActiveState)
    {
      var e := lv.entities[lv.ids[j]];
      MarkOneMore(p0, t + LevelTargets(lv, lv.ids[..j]), lv.slot, e.slot, ActiveState);
      r := SetState(r, lv.slot, e.slot, ActiveState);
      assert lv.ids[..j + 1][..j] == lv.ids[..j];
      assert t + LevelTargets(lv, lv.ids[..j + 1]) == t + LevelTargets(lv, lv.ids[..j]) + {(lv.slot, e.slot)};
      j := j + 1;
    }
    assert lv.ids[..j] == lv.ids;
  }

  /** `levels.forEach(l => l.initializeEntities())`. */
  method Initialize(p: Project, levelIds: seq<string>, levels: map<string, ZLevel>) returns (r: Project)
    requires Fits(p, levelIds, levels)
    ensures r == Mark(p, Targets(levelIds, levels), ActiveState)
  {
    MarkNothing(p, ActiveState);
    r := p;
    var i := 0;
    while i < |levelIds|
      invariant 0 <= i <= |levelIds|
      invariant r == Mark(p, Targets(levelIds[..i], levels), ActiveState)
    {
      var id := levelIds[i];
      r := InitializeLevel(r, levels[id], p, Targets(levelIds[..i], levels));
      assert levelIds[..i + 1][..i] == levelIds[..i];
      i := i + 1;
    }
    assert levelIds[..i] == levelIds;
  }
}
