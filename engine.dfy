/** julesv1/src/core/Engine.ts: the game engine. It owns the active level and
    the systems built for it, and drives them from the render loop with a
    fixed-timestep accumulator: each frame adds the elapsed time, then runs
    the fixed systems (regions, then logic, then physics) with the fixed step
    for as long as a whole step is left, and finally updates the per-frame
    systems with the frame's own time.

    A frame is `Frame(dt)`: the render loop's clock becomes its parameter, and
    the render systems and the scene's drawing, which only read the level,
    are recorded as the `renders` trace. */
module Engines {
  import opened Wrappers
  import opened Constants
  import opened Components
  import opened Entities
  import opened Events
  import opened Levels
  import opened RegionRules
  import opened RegionSystems
  import opened LogicSystems
  import opened PhysicsSystems
  import opened Rng

  /** `fixedTimeStep`, in seconds. */
  const FixedTimeStep: real := 1.0 / 60.0

  /** The seed the engine's generator starts from. */
  const DefaultSeed: int := 12345

  /** What the fixed systems read and write: the level's world, the region
      system's membership cache, the bus's deliveries, and the logic system's
      script calls and fault reports. */
  datatype Sim = Sim(world: map<string, Body>, membership: map<string, seq<string>>, trace: seq<Delivery>,
                     invocations: seq<Invocation>, errors: seq<string>)

  /** The region system's `update`: entities, cache and bus as one tick of
      `RegionRules` says. */
  function RegionTick(s: Sim, ids: seq<string>, listeners: map<string, seq<HandlerId>>): Sim {
    s.(world := TickWorld(s.world, ids, s.membership),
       membership := TickCache(s.world, ids, s.membership),
       trace := s.trace + Dispatch(listeners, TickNotices(s.world, ids, s.membership), Source))
  }

  /** The logic system's `update(step)`: the scripts' calls and faults are
      logged, nothing else changes. */
  function LogicTick(s: Sim, ids: seq<string>, run: ScriptRunner, step: real): Sim {
    var calls := Invocations(s.world, ids, step, run);
    s.(invocations := s.invocations + calls, errors := s.errors + Faulted(calls))
  }

  /** The physics system's `update(step)`: only the world changes. */
  function PhysicsTick(s: Sim, step: real): Sim {
    s.(world := PhysicsWorld(s.world, step))
  }

  /** One pass of `fixedSystems.forEach(s => s.update(step))`: the region
      system, then the logic system on the world the regions left, then the
      physics system. */
  function FixedUpdate(s: Sim, ids: seq<string>, listeners: map<string, seq<HandlerId>>, run: ScriptRunner, step: real): Sim {
    PhysicsTick(LogicTick(RegionTick(s, ids, listeners), ids, run, step), step)
  }

  /** `f` applied `n` times. */
  function Repeat<S>(f: S -> S, s: S, n: nat): S {
    if n == 0 then s else f(Repeat(f, s, n - 1))
  }

  lemma {:induction false} RepeatAdd<S>(f: S -> S, s: S, a: nat, b: nat)
    ensures Repeat(f, Repeat(f, s, a), b) == Repeat(f, s, a + b)
  {
    if b > 0 {
      RepeatAdd(f, s, a, b - 1);
    }
  }

  /** One fixed update as a state transformer. */
  function Tick(ids: seq<string>, listeners: map<string, seq<HandlerId>>, run: ScriptRunner, step: real): Sim -> Sim {
    s => FixedUpdate(s, ids, listeners, run, step)
  }

  /** `n` fixed updates in a row. */
  function Steps(s: Sim, n: nat, ids: seq<string>, listeners: map<string, seq<HandlerId>>, run: ScriptRunner, step: real): Sim {
    Repeat(Tick(ids, listeners, run, step), s, n)
  }

  /** The number of fixed updates the accumulator loop runs once it holds
      `total` seconds: none below one step, otherwise as many whole steps as
      fit. */
  function StepCount(total: real): (n: nat)
    ensures total < FixedTimeStep ==> n == 0
    ensures total >= 0.0 ==> n as real * FixedTimeStep <= total < (n + 1) as real * FixedTimeStep
  {
    if total < FixedTimeStep then 0 else (total / FixedTimeStep).Floor
  }

  /** What the accumulator holds after the loop. */
  function Leftover(total: real): real {
    total - StepCount(total) as real * FixedTimeStep
  }

  /** The loop's exit condition pins down the count: a loop that stopped
      after `k` steps with less than a step left, having started from at least
      a step whenever it ran, ran `StepCount` steps. */
  lemma StepCountIsLoopCount(total: real, k: nat)
    requires k == 0 ==> total < FixedTimeStep
    requires k > 0 ==> 0.0 <= total - k as real * FixedTimeStep < FixedTimeStep
    ensures StepCount(total) == k
  {
    if k > 0 {
      var n := StepCount(total);
      assert n as real * FixedTimeStep <= total < (n + 1) as real * FixedTimeStep;
      assert k as real * FixedTimeStep <= total < (k + 1) as real * FixedTimeStep;
    }
  }

  /** From a non-negative total the accumulator ends in [0, step). */
  lemma LeftoverBounds(total: real)
    ensures Leftover(total) < FixedTimeStep
    ensures total >= 0.0 ==> 0.0 <= Leftover(total)
    ensures total < FixedTimeStep ==> Leftover(total) == total
  {
  }

  /** Fixed updates compose: `a` of them followed by `b` more are `a + b`. */
  lemma StepsAdd(s: Sim, a: nat, b: nat, ids: seq<string>, listeners: map<string, seq<HandlerId>>, run: ScriptRunner, step: real)
    ensures Steps(Steps(s, a, ids, listeners, run, step), b, ids, listeners, run, step) == Steps(s, a + b, ids, listeners, run, step)
  {
    RepeatAdd(Tick(ids, listeners, run, step), s, a, b);
  }

  /** One more fixed update is one more step. */
  lemma StepsNext(s: Sim, n: nat, ids: seq<string>, listeners: map<string, seq<HandlerId>>, run: ScriptRunner, step: real)
    ensures Steps(s, n + 1, ids, listeners, run, step) == FixedUpdate(Steps(s, n, ids, listeners, run, step), ids, listeners, run, step)
  {
  }

  /** The number of fixed updates depends only on the time elapsed: two
      frames of `dt1` and `dt2` run as many as one frame of `dt1 + dt2`, and
      leave the same time in the accumulator. */
  lemma StepCountSplits(acc: real, dt1: real, dt2: real)
    requires acc + dt1 >= 0.0 && dt2 >= 0.0
    ensures StepCount(acc + dt1) + StepCount(Leftover(acc + dt1) + dt2) == StepCount(acc + dt1 + dt2)
    ensures Leftover(Leftover(acc + dt1) + dt2) == Leftover(acc + dt1 + dt2)
  {
    var n1 := StepCount(acc + dt1);
    var rest := Leftover(acc + dt1);
    var n2 := StepCount(rest + dt2);
    LeftoverBounds(acc + dt1);
    assert n2 as real * FixedTimeStep <= rest + dt2 < (n2 + 1) as real * FixedTimeStep;
    var total := acc + dt1 + dt2;
    assert total - (n1 + n2) as real * FixedTimeStep == rest + dt2 - n2 as real * FixedTimeStep;
    StepCountIsLoopCount(total, n1 + n2);
  }

  /** Any step function run for two frames' step counts is run for the
      step count of their total time. */
  lemma RepeatFrames<S>(f: S -> S, s: S, acc: real, dt1: real, dt2: real)
    requires acc + dt1 >= 0.0 && dt2 >= 0.0
    ensures Repeat(f, Repeat(f, s, StepCount(acc + dt1)), StepCount(Leftover(acc + dt1) + dt2)) == Repeat(f, s, StepCount(acc + dt1 + dt2))
  {
    StepCountSplits(acc, dt1, dt2);
    RepeatAdd(f, s, StepCount(acc + dt1), StepCount(Leftover(acc + dt1) + dt2));
  }

  /** Hence two frames do to the simulation exactly what one frame of their
      total time does. */
  lemma TwoFramesAsOne(s: Sim, acc: real, dt1: real, dt2: real, ids: seq<string>, listeners: map<string, seq<HandlerId>>, run: ScriptRunner)
    requires acc + dt1 >= 0.0 && dt2 >= 0.0
    ensures var s1 := Steps(s, StepCount(acc + dt1), ids, listeners, run, FixedTimeStep);
      Steps(s1, StepCount(Leftover(acc + dt1) + dt2), ids, listeners, run, FixedTimeStep)
        == Steps(s, StepCount(acc + dt1 + dt2), ids, listeners, run, FixedTimeStep)
  {
    RepeatFrames(Tick(ids, listeners, run, FixedTimeStep), s, acc, dt1, dt2);
  }

  /** After a fixed update every entity the physics system moved stands at
      or above the floor, and every other entity's body is the one the region
      system left. */
  lemma FixedUpdateRestsOnFloor(s: Sim, ids: seq<string>, listeners: map<string, seq<HandlerId>>, run: ScriptRunner, step: real)
    ensures var w1 := TickWorld(s.world, ids, s.membership);
      var s1 := FixedUpdate(s, ids, listeners, run, step);
      && s1.world.Keys == w1.Keys
      && forall id | id in w1 ::
        if Moves(w1[id]) then s1.world[id].components[TransformKind].position.y >= Floor
        else s1.world[id] == w1[id]
  {
    var w1 := TickWorld(s.world, ids, s.membership);
    forall id | id in w1
      ensures Moves(w1[id]) ==> PhysicsWorld(w1, step)[id].components[TransformKind].position.y >= Floor
    {
      StepPhysicsIsLocal(w1[id], step);
    }
  }

  /** `activeLevel.dispose()` when `level` is loaded next: the disposed
      level's entities are destroyed, and `level` stays valid (and, when it
      is another level, keeps its entities). */
  method DisposeBeside(gone: Level, level: Level)
    requires gone.Valid() && level.Valid()
    modifies gone`entities, gone`ids, gone.entities.Values
    ensures level.Valid()
    ensures forall id | id in old(gone.entities) :: DestroyedSince(old(gone.entities)[id])
    ensures gone.entities == map[] && gone.ids == []
    ensures gone != level ==> level.entities == old(level.entities) && level.ids == old(level.ids)
  {
    ghost var before := gone.entities;
    gone.Dispose();
    forall i | 0 <= i < |level.ids| ensures level.entities[level.ids[i]].Valid() {
      var e := level.entities[level.ids[i]];
      if e !in before.Values {
        assert e.Valid();
      }
    }
  }

  /** `fixedSystems`: the region, logic and physics systems `loadLevel`
      builds for one level, updated in that order with the fixed step. */
  class FixedSystems {
    const level: Level
    const region: RegionSystem
    const logic: LogicSystem
    const physics: PhysicsSystem

    ghost predicate Valid()
      reads level, level.entities.Values
    {
      && region.level == level && logic.level == level && physics.level == level
      && level.Valid()
    }

    /** What the fixed systems see. */
    ghost function State(): Sim
      reads level, level.entities.Values, level.bus`trace, region`membership, logic`invocations, logic`errors
    {
      Sim(level.World(), region.membership, level.bus.trace, logic.invocations, logic.errors)
    }

    constructor (level: Level, run: ScriptRunner)
      requires level.Valid()
      ensures Valid() && this.level == level && logic.run == run
      ensures fresh(region) && fresh(logic) && fresh(physics)
      ensures region.membership == map[] && logic.invocations == [] && logic.errors == []
    {
      this.level := level;
      region := new RegionSystem(level);
      logic := new LogicSystem(level, run);
      physics := new PhysicsSystem(level);
    }

    /** The region system's `update(step)` on a state `s`. */
    method RegionPhase(ghost s: Sim)
      requires Valid() && s == State()
      modifies region`membership, level.bus`trace, level.entities.Values`components
      ensures Valid()
      ensures State() == RegionTick(s, level.ids, level.bus.listeners)
    {
      region.Update(FixedTimeStep);
    }

    /** The logic system's `update(step)` on a state `s`. */
    method LogicPhase(ghost s: Sim)
      requires Valid() && s == State()
      modifies logic`invocations, logic`errors
      ensures Valid()
      ensures State() == LogicTick(s, level.ids, logic.run, FixedTimeStep)
    {
      logic.VisitAll(level.ids, s.world, FixedTimeStep);
      assert level.World() == s.world;
    }

    /** The physics system's `update(step)` on a state `s`. */
    method PhysicsPhase(ghost s: Sim)
      requires Valid() && s == State()
      modifies level.entities.Values`components
      ensures Valid()
      ensures State() == PhysicsTick(s, FixedTimeStep)
    {
      physics.Update(FixedTimeStep);
    }

    /** The first two of the fixed systems, regions then logic, on a state
        `s`. */
    method RegionThenLogic(ghost s: Sim)
      requires Valid() && s == State()
      modifies region`membership, level.bus`trace, level.entities.Values`components
      modifies logic`invocations, logic`errors
      ensures Valid()
      ensures State() == LogicTick(RegionTick(s, level.ids, level.bus.listeners), level.ids, logic.run, FixedTimeStep)
    {
      RegionPhase(s);
      LogicPhase(State());
    }

    /** `fixedSystems.forEach(s => s.update(step))` on a state `s`. */
    method Update(ghost s: Sim)
      requires Valid() && s == State()
      modifies region`membership, level.bus`trace, level.entities.Values`components
      modifies logic`invocations, logic`errors
      ensures Valid()
      ensures State() == FixedUpdate(s, level.ids, level.bus.listeners, logic.run, FixedTimeStep)
    {
      ghost var ids, listeners := level.ids, level.bus.listeners;
      RegionThenLogic(s);
      ghost var s1 := State();
      assert s1 == LogicTick(RegionTick(s, ids, listeners), ids, logic.run, FixedTimeStep);
      PhysicsPhase(s1);
    }

    /** The accumulator loop `while (accumulator >= step)`: runs the fixed
        systems once per whole step in `accumulator` and returns the rest. */
    method RunSteps(accumulator: real, ghost s0: Sim, ghost run: ScriptRunner) returns (rest: real)
      requires Valid() && s0 == State() && logic.run == run
      modifies region`membership, level.bus`trace, level.entities.Values`components
      modifies logic`invocations, logic`errors
      ensures Valid()
      ensures rest == Leftover(accumulator)
      ensures State() == Steps(s0, StepCount(accumulator), level.ids, level.bus.listeners, run, FixedTimeStep)
    {
      ghost var k;
      rest, k := Loop(accumulator, s0, Tick(level.ids, level.bus.listeners, run, FixedTimeStep));
      StepCountIsLoopCount(accumulator, k);
    }

    /** The loop itself, counting its passes in `k`. */
    method Loop(accumulator: real, ghost s0: Sim, ghost tick: Sim -> Sim) returns (rest: real, ghost k: nat)
      requires Valid() && s0 == State() && tick == Tick(level.ids, level.bus.listeners, logic.run, FixedTimeStep)
      modifies region`membership, level.bus`trace, level.entities.Values`components
      modifies logic`invocations, logic`errors
      ensures Valid()
      ensures rest == accumulator - k as real * FixedTimeStep && rest < FixedTimeStep
      ensures k > 0 ==> rest >= 0.0
      ensures State() == Repeat(tick, s0, k)
    {
      k := 0;
      rest := accumulator;
      while rest >= FixedTimeStep
        invariant Valid()
        invariant rest == accumulator - k as real * FixedTimeStep
        invariant k > 0 ==> rest >= 0.0
        invariant State() == Repeat(tick, s0, k)
        decreases (rest / FixedTimeStep).Floor
      {
        UpdateAfter(s0, k, tick);
        rest := rest - FixedTimeStep;
        k := k + 1;
      }
    }

    /** `Update` once `k` fixed updates, each `tick`, have been run from
        `s0`: then `k + 1` have. */
    method UpdateAfter(ghost s0: Sim, ghost k: nat, ghost tick: Sim -> Sim)
      requires Valid() && tick == Tick(level.ids, level.bus.listeners, logic.run, FixedTimeStep)
      requires State() == Repeat(tick, s0, k)
      modifies region`membership, level.bus`trace, level.entities.Values`components
      modifies logic`invocations, logic`errors
      ensures Valid()
      ensures State() == Repeat(tick, s0, k + 1)
    {
      Update(State());
    }
  }

  class GameEngine {
    var activeLevel: Level?
    /** `fixedSystems`, null until a level is loaded. */
    var fixed: FixedSystems?
    var running: bool
    var accumulator: real
    const rng: SeededRNG
    /** The scripts' behaviour, handed to every logic system the engine builds. */
    const run: ScriptRunner
    /** The `dt` of every frame whose render systems and scene ran. */
    var renders: seq<real>

    /** Once a level is loaded, the fixed systems work on it. */
    ghost predicate Valid()
      reads this`activeLevel, this`fixed, fixed
      reads if fixed != null then {fixed.level} + fixed.level.entities.Values else {}
    {
      activeLevel != null ==>
        && fixed != null && fixed.level == activeLevel && fixed.logic.run == run
        && fixed.Valid()
    }

    constructor (run: ScriptRunner)
      ensures Valid()
      ensures activeLevel == null && !running && accumulator == 0.0 && renders == []
      ensures fresh(rng) && rng.seed == DefaultSeed && this.run == run
    {
      activeLevel := null;
      fixed := null;
      running := false;
      accumulator := 0.0;
      rng := new SeededRNG(DefaultSeed);
      this.run := run;
      renders := [];
    }

    /** `loadLevel(level)`: disposes the level that was active, then builds
        fresh fixed systems for the new one. The accumulator and the running
        flag are kept. */
    method LoadLevel(level: Level)
      requires Valid() && level.Valid()
      modifies this`activeLevel, this`fixed
      modifies if activeLevel != null then {activeLevel} + activeLevel.entities.Values else {}
      ensures Valid()
      ensures activeLevel == level && fresh(fixed)
      ensures fixed.region.membership == map[] && fixed.logic.invocations == [] && fixed.logic.errors == []
      ensures old(activeLevel) != null ==>
        forall id | id in old(activeLevel.entities) :: DestroyedSince(old(activeLevel.entities)[id])
      ensures old(activeLevel) != level ==> level.entities == old(level.entities) && level.ids == old(level.ids)
      ensures old(activeLevel) == level ==> level.entities == map[] && level.ids == []
    {
      if activeLevel != null {
        DisposeBeside(activeLevel, level);
      }
      activeLevel := level;
      fixed := new FixedSystems(level, run);
    }

    /** `start()`: a second call while running does nothing. */
    method Start()
      modifies this`running
      ensures running
    {
      if running {
        return;
      }
      running := true;
    }

    /** `stop()`: the render loop stops; stopping twice is stopping once. */
    method Stop()
      modifies this`running
      ensures !running
    {
      running := false;
    }

    /** One call of the render-loop callback with the elapsed time `dt`.
        Nothing happens unless the engine runs a level; otherwise the fixed
        updates that fit are run, the rest of the time stays in the
        accumulator, and the frame is rendered. */
    method Frame(dt: real)
      requires Valid()
      modifies this`accumulator, this`renders
      modifies (if activeLevel != null then {fixed.region} else {})`membership
      modifies (if activeLevel != null then {fixed.logic} else {})`invocations
      modifies (if activeLevel != null then {fixed.logic} else {})`errors
      modifies (if activeLevel != null then {activeLevel.bus} else {})`trace
      modifies (if activeLevel != null then activeLevel.entities.Values else {})`components
      ensures Valid()
      ensures !running || activeLevel == null ==> accumulator == old(accumulator) && renders == old(renders)
      ensures !running && activeLevel != null ==> fixed.State() == old(fixed.State())
      ensures running && activeLevel != null ==>
        && accumulator == Leftover(old(accumulator) + dt)
        && renders == old(renders) + [dt]
        && fixed.State() == Steps(old(fixed.State()), StepCount(old(accumulator) + dt), activeLevel.ids, activeLevel.bus.listeners, run, FixedTimeStep)
    {
      if running && activeLevel != null {
        Advance(dt);
      }
    }

    /** A frame of a running engine with a level. */
    method Advance(dt: real)
      requires Valid() && activeLevel != null
      modifies this`accumulator, this`renders
      modifies fixed.region`membership, fixed.logic`invocations, fixed.logic`errors, activeLevel.bus`trace
      modifies activeLevel.entities.Values`components
      ensures Valid()
      ensures accumulator == Leftover(old(accumulator) + dt)
      ensures renders == old(renders) + [dt]
      ensures fixed.State() == Steps(old(fixed.State()), StepCount(old(accumulator) + dt), activeLevel.ids, activeLevel.bus.listeners, run, FixedTimeStep)
    {
      var rest := fixed.RunSteps(accumulator + dt, fixed.State(), run);
      EndFrame(rest, dt);
    }

    /** The end of a frame: the accumulator keeps what the loop left, and
        the variable-rate systems and the scene run with the frame's `dt`. */
    method EndFrame(rest: real, dt: real)
      requires Valid() && activeLevel != null
      modifies this`accumulator, this`renders
      ensures Valid() && fixed.State() == old(fixed.State())
      ensures accumulator == rest && renders == old(renders) + [dt]
    {
      accumulator := rest;
      renders := renders + [dt];
    }
  }
}
