/** The zAI submission's engine, assets/js/engine.js.

    The engine holds the project, the runtime levels built from it, the
    play flag, the snapshot taken at play, the accumulator and the pressed
    keys. While playing, every frame adds its elapsed time and runs the
    fixed update (regions, then logic, then the transform system, which does
    nothing) once per whole 1/60 s step; every frame, playing or not, renders
    all levels. Play takes a snapshot of the project and activates every
    runtime entity's record; stop restores the snapshot and rebuilds the
    levels from it.

    The frame's elapsed time is the parameter `dt`; rendering is recorded as
    the `rendered` trace of the level ids drawn; script calls and the names
    logged for faulting scripts are the `calls` and `errors` traces. */
module ZaiEngine {
  import opened Wrappers
  import opened SeqUtil
  import opened ZaiData
  import opened ZaiSystems
  import opened ZaiLoading
  import Engines

  /** `fixedDeltaTime`: 1/60 s, the same step as `Engines.FixedTimeStep`,
      whose step count and leftover the loop here shares. */
  const FixedDeltaTime: real := Engines.FixedTimeStep

  /** What the fixed update changes: the runtime levels and the logs. */
  datatype World = World(levels: map<string, ZLevel>, calls: seq<ScriptCall>, errors: seq<string>)

  /** `fixedUpdate(dt)`: the region system, then the logic system on the
      levels the regions left; the transform system's update is empty. */
  function FixedUpdate(p: Project, levelIds: seq<string>, w: World, contact: Contact, keys: set<string>, run: SourceRunner, dt: real): World {
    var regioned := RegionWorld(p, w.levels, contact);
    var calls := WorldCalls(p, regioned, levelIds, dt, run);
    World(LogicWorld(p, regioned, keys), w.calls + calls, w.errors + ErrorNames(calls))
  }

  /** One fixed update with the fixed step, as a state transformer. */
  function Tick(p: Project, levelIds: seq<string>, contact: Contact, keys: set<string>, run: SourceRunner): World -> World {
    w => FixedUpdate(p, levelIds, w, contact, keys, run, FixedDeltaTime)
  }

  /** `n` fixed updates in a row. */
  function Steps(p: Project, levelIds: seq<string>, w: World, n: nat, contact: Contact, keys: set<string>, run: SourceRunner): World {
    Engines.Repeat(Tick(p, levelIds, contact, keys, run), w, n)
  }

  /** Two levels with the same place and ids, each entity pointing at the
      same record. */
  ghost predicate SameLevelLayout(a: ZLevel, b: ZLevel) {
    && a.slot == b.slot && a.ids == b.ids && a.entities.Keys == b.entities.Keys
    && forall e | e in a.entities :: a.entities[e].slot == b.entities[e].slot
  }

  /** Two Maps of the same levels, laid out the same. */
  ghost predicate SameLayout(a: map<string, ZLevel>, b: map<string, ZLevel>) {
    a.Keys == b.Keys && forall id | id in a :: SameLevelLayout(a[id], b[id])
  }

  /** The region and logic updates of one level keep its layout. */
  lemma UpdatesKeepLevelLayout(p: Project, lv: ZLevel, contact: Contact, keys: set<string>)
    ensures SameLevelLayout(lv, LogicLevel(p, RegionLevel(p, lv, contact), keys))
  {
    RegionUpdateFrame(p, lv, contact);
    LogicUpdateMovesOnly(p, RegionLevel(p, lv, contact), keys);
  }

  /** A fixed update keeps every level's place and ids and every entity's
      record, so what the engine holds still fits its project. */
  lemma FixedUpdateKeepsFit(p: Project, levelIds: seq<string>, w: World, contact: Contact, keys: set<string>, run: SourceRunner, dt: real)
    requires Fits(p, levelIds, w.levels)
    ensures SameLayout(w.levels, FixedUpdate(p, levelIds, w, contact, keys, run, dt).levels)
    ensures Fits(p, levelIds, FixedUpdate(p, levelIds, w, contact, keys, run, dt).levels)
  {
    var r := LogicWorld(p, RegionWorld(p, w.levels, contact), keys);
    forall id | id in w.levels
      ensures SameLevelLayout(w.levels[id], r[id])
    {
      UpdatesKeepLevelLayout(p, w.levels[id], contact, keys);
    }
    LayoutKeepsFit(p, levelIds, w.levels, r);
  }

  lemma LayoutKeepsFit(p: Project, levelIds: seq<string>, a: map<string, ZLevel>, b: map<string, ZLevel>)
    requires Fits(p, levelIds, a) && SameLayout(a, b)
    ensures Fits(p, levelIds, b)
  {
    forall id | id in b
      ensures WellFormed(b[id]) && Wired(p, b[id])
    {
      assert WellFormed(a[id]) && Wired(p, a[id]);
    }
  }

  /** The logs only grow: a fixed update appends this update's calls, and
      the names of the scripts among them that threw. */
  lemma FixedUpdateAppendsLogs(p: Project, levelIds: seq<string>, w: World, contact: Contact, keys: set<string>, run: SourceRunner, dt: real)
    ensures var r := FixedUpdate(p, levelIds, w, contact, keys, run, dt);
      && |r.calls| >= |w.calls| && r.calls[..|w.calls|] == w.calls
      && |r.errors| >= |w.errors| && r.errors[..|w.errors|] == w.errors
      && forall c | c in r.calls[|w.calls|..] :: c.dt == dt
  {
    var r := FixedUpdate(p, levelIds, w, contact, keys, run, dt);
    var regioned := RegionWorld(p, w.levels, contact);
    WorldCallsDt(p, regioned, levelIds, dt, run);
    assert r.calls[|w.calls|..] == WorldCalls(p, regioned, levelIds, dt, run);
  }

  /** Every call of an update carries the update's dt. */
  lemma {:induction false} WorldCallsDt(p: Project, levels: map<string, ZLevel>, levelIds: seq<string>, dt: real, run: SourceRunner)
    ensures forall c | c in WorldCalls(p, levels, levelIds, dt, run) :: c.dt == dt
  {
    if levelIds != [] {
      var id := levelIds[|levelIds| - 1];
      WorldCallsDt(p, levels, levelIds[..|levelIds| - 1], dt, run);
      if id in levels {
        CallsRunTheirScripts(p, levels[id], levels[id].ids, dt, run);
      }
    }
  }

  /** Fixed updates compose: `a` of them followed by `b` more are `a + b`. */
  lemma StepsAdd(p: Project, levelIds: seq<string>, w: World, a: nat, b: nat, contact: Contact, keys: set<string>, run: SourceRunner)
    ensures Steps(p, levelIds, Steps(p, levelIds, w, a, contact, keys, run), b, contact, keys, run) == Steps(p, levelIds, w, a + b, contact, keys, run)
  {
    Engines.RepeatAdd(Tick(p, levelIds, contact, keys, run), w, a, b);
  }

  /** The fixed updates run depend only on the time that passed while
      playing: two frames do what one frame of their total time does. */
  lemma TwoFramesAsOne(p: Project, levelIds: seq<string>, w: World, acc: real, dt1: real, dt2: real, contact: Contact, keys: set<string>, run: SourceRunner)
    requires acc + dt1 >= 0.0 && dt2 >= 0.0
    ensures var w1 := Steps(p, levelIds, w, Engines.StepCount(acc + dt1), contact, keys, run);
      Steps(p, levelIds, w1, Engines.StepCount(Engines.Leftover(acc + dt1) + dt2), contact, keys, run)
        == Steps(p, levelIds, w, Engines.StepCount(acc + dt1 + dt2), contact, keys, run)
  {
    Engines.RepeatFrames(Tick(p, levelIds, contact, keys, run), w, acc, dt1, dt2);
  }

  /** `fixedUpdate(dt)` on values. */
  method FixedStep(p: Project, levelIds: seq<string>, w: World, contact: Contact, keys: set<string>, run: SourceRunner, dt: real) returns (r: World)
    requires Fits(p, levelIds, w.levels)
    ensures r == FixedUpdate(p, levelIds, w, contact, keys, run, dt)
  {
    var regioned := UpdateRegions(p, levelIds, w.levels, contact);
    var logicked, calls := UpdateLogic(p, levelIds, regioned, dt, keys, run);
    r := World(logicked, w.calls + calls, w.errors + ErrorNames(calls));
  }

  /** The accumulator loop `while (accumulator >= fixedDeltaTime)`: one
      fixed update per whole step in `acc`; returns what is left. */
  method RunFixed(p: Project, levelIds: seq<string>, acc: real, w0: World, contact: Contact, keys: set<string>, run: SourceRunner)
    returns (rest: real, w: World)
    requires Fits(p, levelIds, w0.levels)
    ensures Fits(p, levelIds, w.levels)
    ensures rest == Engines.Leftover(acc)
    ensures w == Steps(p, levelIds, w0, Engines.StepCount(acc), contact, keys, run)
  {
    rest := acc;
    w := w0;
    ghost var k: nat := 0;
    while rest >= FixedDeltaTime
      invariant rest == acc - k as real * FixedDeltaTime
      invariant k > 0 ==> rest >= 0.0
      invariant Fits(p, levelIds, w.levels)
      invariant w == Steps(p, levelIds, w0, k, contact, keys, run)
      decreases (rest / FixedDeltaTime).Floor
    {
      FixedUpdateKeepsFit(p, levelIds, w, contact, keys, run, FixedDeltaTime);
      w := FixedStep(p, levelIds, w, contact, keys, run, FixedDeltaTime);
      rest := rest - FixedDeltaTime;
      k := k + 1;
    }
    Engines.StepCountIsLoopCount(acc, k);
  }

  class GameEngine {
    /** `project`; `None` is `null`, which a stop without a snapshot
        leaves behind. */
    var project: Option<Project>
    /** The `levels` Map: its ids in insertion order, and the level per id. */
    var levelIds: seq<string>
    var levels: map<string, ZLevel>
    var isPlaying: bool
    var snapshot: Option<Project>
    var accumulator: real
    /** The codes of the keys held down. */
    var keys: set<string>
    var calls: seq<ScriptCall>
    var errors: seq<string>
    /** The level ids rendered, one entry per frame. */
    var rendered: seq<seq<string>>
    const contact: Contact
    const run: SourceRunner

    /** The records the levels refer to: a `null` project holds none. */
    function Data(): Project
      reads this
    {
      if project.Some? then project.value else Project([])
    }

    /** The levels fit the project, a `null` project has no levels, and
        while stopped there is a project and no snapshot. */
    ghost predicate Valid()
      reads this
    {
      && Fits(Data(), levelIds, levels)
      && (project.None? ==> levelIds == [] && levels == map[])
      && (!isPlaying ==> project.Some? && snapshot == None)
    }

    /** The simulation state the frames advance. */
    function State(): World
      reads this
    {
      World(levels, calls, errors)
    }

    /** `new GameEngine()` with the project `initial`: not playing, no
        snapshot, an empty accumulator, and the levels loaded from the
        project. */
    constructor (initial: Project, contact: Contact, run: SourceRunner)
      ensures Valid() && project == Some(initial)
      ensures levelIds == Load(initial).ids && levels == Load(initial).levels
      ensures !isPlaying && snapshot == None && accumulator == 0.0 && keys == {}
      ensures calls == [] && errors == [] && rendered == []
      ensures this.contact == contact && this.run == run
    {
      project := Some(initial);
      levelIds := [];
      levels := map[];
      isPlaying := false;
      snapshot := None;
      accumulator := 0.0;
      keys := {};
      calls := [];
      errors := [];
      rendered := [];
      this.contact := contact;
      this.run := run;
      new;
      var ok := LoadProject(Some(initial));
    }

    /** `loadProject(data)`: the old levels go, the project is `data`, and
        the levels are built from it until one throws; `ok` says whether
        the load ran to the end. A `null` project throws at its `levels`
        with no level built. */
    method LoadProject(data: Option<Project>) returns (ok: bool)
      modifies this`project, this`levelIds, this`levels
      ensures project == data
      ensures data.None? ==> !ok && levelIds == [] && levels == map[]
      ensures data.Some? ==> Loaded(levelIds, levels, ok) == Load(data.value)
      ensures Fits(Data(), levelIds, levels)
    {
      levelIds := [];
      levels := map[];
      project := data;
      if data.None? {
        ok := false;
        return;
      }
      var l := LoadAll(data.value);
      LoadLevelsFit(data.value, |data.value.levels|);
      levelIds := l.ids;
      levels := l.levels;
      ok := l.ok;
    }

    /** `togglePlay()`. Stopping restores the snapshot, clears it and
        reloads the levels from it; the engine stops playing once that load
        has run to the end. Without a snapshot, which a stop whose reload
        threw leaves behind, `JSON.parse(null)` restores `null`: the reload
        clears every level and throws, and the engine keeps playing. Playing
        snapshots the project, writes "active" into the record of every
        runtime entity, and starts. */
    method TogglePlay() returns (ok: bool)
      requires Valid()
      modifies this`project, this`levelIds, this`levels, this`isPlaying, this`snapshot
      ensures Valid()
      ensures old(isPlaying) ==>
        && project == old(snapshot) && snapshot == None
        && isPlaying == !ok
      ensures old(isPlaying) && old(snapshot).None? ==> !ok && levelIds == [] && levels == map[]
      ensures old(isPlaying) && old(snapshot).Some? ==> Loaded(levelIds, levels, ok) == Load(old(snapshot).value)
      ensures !old(isPlaying) ==>
        && ok && isPlaying && snapshot == old(project)
        && levelIds == old(levelIds) && levels == old(levels)
        && project == Some(Mark(old(project).value, Targets(levelIds, levels), ActiveState))
    {
      if isPlaying {
        ok := StopPlaying();
      } else {
        StartPlaying();
        ok := true;
      }
    }

    /** The stop branch of `togglePlay()`. */
    method StopPlaying() returns (ok: bool)
      requires Valid() && isPlaying
      modifies this`project, this`levelIds, this`levels, this`isPlaying, this`snapshot
      ensures Valid()
      ensures project == old(snapshot) && snapshot == None && isPlaying == !ok
      ensures old(snapshot).None? ==> !ok && levelIds == [] && levels == map[]
      ensures old(snapshot).Some? ==> Loaded(levelIds, levels, ok) == Load(old(snapshot).value)
    {
      var restored := snapshot;
      snapshot := None;
      ok := LoadProject(restored);
      if ok {
        isPlaying := false;
      }
    }

    /** The play branch of `togglePlay()`. */
    method StartPlaying()
      requires Valid() && !isPlaying
      modifies this`project, this`isPlaying, this`snapshot
      ensures Valid()
      ensures isPlaying && snapshot == old(project)
      ensures project == Some(Mark(old(project).value, Targets(levelIds, levels), ActiveState))
    {
      var current := project.value;
      var marked := Initialize(current, levelIds, levels);
      MarkKeepsFit(current, Targets(levelIds, levels), ActiveState, levelIds, levels);
      Play(marked);
    }

    /** The play flag set, with `p` as the project and the old one as the
        snapshot. */
    method Play(p: Project)
      requires Fits(p, levelIds, levels) && project.Some?
      modifies this`project, this`isPlaying, this`snapshot
      ensures Valid()
      ensures isPlaying && project == Some(p) && snapshot == old(project)
    {
      snapshot, project, isPlaying := project, Some(p), true;
    }

    /** One call of the render-loop callback, `dt` seconds after the last:
        while playing, the fixed updates that fit run and the rest of the
        time stays in the accumulator; in any case every level is rendered. */
    method Frame(dt: real)
      requires Valid()
      modifies this`accumulator, this`levels, this`calls, this`errors, this`rendered
      ensures Valid()
      ensures isPlaying ==>
        && accumulator == Engines.Leftover(old(accumulator) + dt)
        && State() == Steps(Data(), levelIds, old(State()), Engines.StepCount(old(accumulator) + dt), contact, keys, run)
      ensures !isPlaying ==> accumulator == old(accumulator) && State() == old(State())
      ensures rendered == old(rendered) + [levelIds]
    {
      if isPlaying {
        Advance(dt);
      }
      rendered := rendered + [levelIds];
    }

    /** The fixed-step part of a frame while playing. */
    method Advance(dt: real)
      requires Valid()
      modifies this`accumulator, this`levels, this`calls, this`errors
      ensures Valid()
      ensures accumulator == Engines.Leftover(old(accumulator) + dt)
      ensures State() == Steps(Data(), levelIds, old(State()), Engines.StepCount(old(accumulator) + dt), contact, keys, run)
    {
      var rest, w := RunFixed(Data(), levelIds, accumulator + dt, State(), contact, keys, run);
      accumulator := rest;
      levels := w.levels;
      calls := w.calls;
      errors := w.errors;
    }

    /** The key listeners: `keys[code]` becomes true on key down and false
        on key up; a key is held while its entry is true. */
    method SetKey(code: string, down: bool)
      modifies this`keys
      ensures keys == if down then old(keys) + {code} else old(keys) - {code}
    {
      if down {
        keys := keys + {code};
      } else {
        keys := keys - {code};
      }
    }
  }
}
