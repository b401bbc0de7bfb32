# rGameEngine simulation kernel in Dafny

This project models the simulation kernel of the rGameEngine submissions and proves properties of it. It covers three submissions.

**julesv1** (`submissions/julesv1/src`) is the full entity/component engine:
- entities with a lifecycle state machine and component hooks;
- five component kinds, with their `serialize`/`deserialize`;
- levels that own their entities;
- a synchronous event bus;
- the region system, which tracks box containment, emits `RegionEnter`/`RegionExit` events, and folds priority-sorted modifiers into the effective gravity and colour;
- the logic system, which runs scripts per entity with faults caught;
- the physics system, which does semi-implicit Euler integration with a floor at y = 0.5;
- the engine's fixed-timestep accumulator, which runs the region, logic and physics systems in that order;
- the linear congruential generator `SeededRNG`.

**zAI** (`submissions/zAI/assets/js`) is a data-driven engine:
- a project of level records is loaded into runtime levels, and loading throws when an entity has no Transform;
- the play toggle snapshots the project, marks every entity active, and restores the snapshot on stop;
- the region system folds `PropertyOverride` components of intersecting regions, sorted by descending priority, into effective properties;
- the logic system runs scripts, logging the ones that fail, and moves `Movement` entities with the WASD keys;
- the same fixed-timestep accumulator runs these systems.

**gAI** (`submissions/gAI/services/EngineService.ts`) is the bridge from editor state to the scene:
- `syncLevel`/`syncEntity` reconcile a node map with the level, creating nodes by kind and writing transforms and mesh properties. While playing, they write the transform only for static entities.
- `runGameLoop` gathers regions and sorts them by descending priority. It resolves a gravity scale and a tint at each dynamic node, then integrates gravity and velocity with the floor clamp.

## How the model is organised

**State and loops.** Where the source mutates objects, the model uses classes:
- julesv1: `Entity`, `Level`, `EventBus`, the three systems, `FixedSystems`, `GameEngine` and `SeededRNG`;
- zAI: `GameEngine`;
- gAI: `EngineService`.

Each method states its new state as a function of the old one. The loops carry invariants that tie them to recursive specification functions. Properties are proved about those functions as lemmas.

**Values.** Components, zAI records and gAI entities are values. Where JavaScript's `Map` order matters, it is an explicit id sequence.

**Arithmetic.** Numbers are reals. Integer seeds in `SeededRNG` are integers, with JavaScript's truncating `%` written out.

**Parameters.** These stand in for code or devices outside the model:
- script execution (an oracle from script to `Ok`/`Fault`);
- mesh intersection in zAI (`Contact`);
- bounding-box containment in gAI (`Inside`);
- the frame's elapsed time (`dt`);
- the keyboard (the `SetKey` method).

### Where the code and the design notes differ (the model follows the code)

- **Override priority.** Regions are sorted by descending priority and folded in that order. So among conflicting `Override` modifiers, the LOWEST priority region is applied last and wins. This holds in all three submissions (`RegionSystem.ts:82`, `systems.js:11-26`, `EngineService.ts:234-259`). The design says the higher priority wins. See `RegionRules.ConflictingOverridesLowerPriorityWins`, `ZaiSystems.LowestPriorityOverrideWins` and `GaiLoop.LowestPriorityOverrideDecides`.
- **Leaving Destroyed.** `activate` tests only for Active, so it revives a Destroyed entity (`Entity.ts:57-61`). The design calls Destroyed terminal. `Entities.DestroyedIsLeftOnlyByActivate` states exactly when Destroyed is left.
- **Region size.** The julesv1 region `size` is a full extent (`isInside` halves it), not a half extent.
- **julesv1 physics.** Every Active entity with Physics and Transform is integrated. There is no `isStatic` and no `useGravity` in julesv1.
- **gAI `isStatic` when unset.** An unset `isStatic` counts as static in `syncEntity` (`?? true`) but as dynamic in `runGameLoop` (`!phys.isStatic`). So the loop moves such a node, and every sync while playing writes the editor transform back (`GaiScene.UnsetIsStaticIsStaticAndMoving`).
- **gAI shapes from their use sites.** gAI's `types.ts` declares `meshType`, no Camera kind and no Physics component. The service reads `shape`, a Camera component, `isStatic`/`useGravity`/`velocity`, `blendMode` and `modifiers.gravityScale`/`colorTint`. The model follows the service.
- **zAI stop on a failed reload.** When the restored snapshot fails to load on stop, `loadProject` throws before `isPlaying = false`. The engine then stays playing, and the snapshot is already cleared. The next stop parses the `null` snapshot to a `null` project: `loadProject(null)` clears every level and throws at `this.project.levels`. From then on every toggle stays in that playing state, with no levels and a `null` project (`ZaiEngine.GameEngine.StopPlaying`).
- **zAI falsy values.** Zero counts as unset in two places: a falsy current value is replaced by an override whatever its mode, and a missing priority counts as 0 (`|| 0`).

## Model

| member | source | states |
|---|---|---|
| Components.NamesAreDistinct | submissions/julesv1/src/components/TransformComponent.ts:5 | the five component classes carry five distinct `name`s, so keying an entity's component map by kind is keying it by name |
| Components.Default | submissions/julesv1/src/components/PhysicsComponent.ts:6-13 | a freshly constructed component has the requested kind and owner (the field initialisers of the five classes) |
| Components.Construct | submissions/julesv1/src/core/Component.ts:11-16 | the constructor records the owner and the kind; without data it is exactly the default component |
| Components.DeserializeKeepsIdentity | submissions/julesv1/src/core/Component.ts:19 | `deserialize` never changes a component's kind or owner |
| Components.DeserializeWithoutKeys | submissions/julesv1/src/core/Component.ts:19 | data with none of the component's keys (or for another kind) leaves it unchanged |
| Components.PhysicsDeserialize | submissions/julesv1/src/components/PhysicsComponent.ts:15-22 | a gravity key sets both base and effective gravity; a missing or zero mass keeps the old mass; a missing velocity keeps the old velocity |
| Components.PhysicsSerializeOmitsEffectiveGravity | submissions/julesv1/src/components/PhysicsComponent.ts:24-30 | `serialize` writes velocity, mass and base gravity, and does not depend on the effective gravity |
| Components.PhysicsRoundTrip | submissions/julesv1/src/components/PhysicsComponent.ts:15-30 | deserializing a serialized Physics restores velocity and base gravity, resets the effective gravity to the base, and restores the mass unless it was 0 |
| Components.RegionDeserialize | submissions/julesv1/src/components/RegionComponent.ts:17-21 | a present priority (0 included) is taken; missing modifiers or size keep the old ones |
| Components.RegionRoundTrip | submissions/julesv1/src/components/RegionComponent.ts:17-29 | a Region survives serialize then deserialize exactly, owner aside |
| Components.TransformDeserialize | submissions/julesv1/src/components/TransformComponent.ts:21-26 | an empty parent id is ignored; a non-empty one is taken |
| Components.TransformRoundTrip | submissions/julesv1/src/components/TransformComponent.ts:21-35 | position, rotation and scale survive the round trip; the parent id only when it is non-empty |
| Components.MeshDeserialize | submissions/julesv1/src/components/MeshComponent.ts:16-23 | a colour sets both base and effective colour; a present alpha (0 included) is taken; an empty type is ignored |
| Components.MeshSerializeOmitsEffectiveColor | submissions/julesv1/src/components/MeshComponent.ts:25-31 | `serialize` does not depend on the region-tinted effective colour |
| Components.MeshRoundTrip | submissions/julesv1/src/components/MeshComponent.ts:16-31 | base colour and alpha survive the round trip, the effective colour is reset to the base, the type survives unless empty |
| Components.LogicRoundTrip | submissions/julesv1/src/components/LogicComponent.ts:8-18 | `serialize` writes only the code, not the compiled script; the code survives unless empty |
| Components.DefaultsSurviveReload | submissions/julesv1/src/core/Component.ts:11-20 | constructing any kind from the serialized default gives the default back |
| Entities.HookCalls | submissions/julesv1/src/core/Entity.ts:54 | a `forEach` hook pass calls the hook once per component, in the map's insertion order |
| Entities.TransitionsAreIdempotent | submissions/julesv1/src/core/Entity.ts:51-76 | each lifecycle call is guarded, so a second call is a no-op and calls no hooks |
| Entities.DestroyedIsLeftOnlyByActivate | submissions/julesv1/src/core/Entity.ts:57-61 | from Destroyed only `activate` changes the state (to Active): its guard tests only for Active |
| Entities.DestroyedStaysWithoutActivate | submissions/julesv1/src/core/Entity.ts:51-76 | any sequence of lifecycle calls without `activate` leaves a destroyed entity destroyed |
| Entities.UnloadedIsUnreachable | submissions/julesv1/src/core/Entity.ts:51-76 | no lifecycle call leads to Unloaded |
| Entities.InitializeOnlyFromCreated | submissions/julesv1/src/core/Entity.ts:51-55 | `initialize` acts only on a Created entity and leaves every other state as it is |
| Entities.Entity.constructor | submissions/julesv1/src/core/Entity.ts:14-21 | a new entity has its id, is Created and has no components |
| Entities.Entity.AddComponent | submissions/julesv1/src/core/Entity.ts:23-45 | on a destroyed entity it fails and changes nothing; otherwise it stores the constructed component under its name (replacing one of the same name, which keeps its place in the order) and runs `onInitialize` when Initialized or Active and also `onActivate` when Active |
| Entities.Entity.GetComponent | submissions/julesv1/src/core/Entity.ts:47-49 | a component is returned exactly when one of that name is stored, and it belongs to this entity |
| Entities.Entity.Initialize | submissions/julesv1/src/core/Entity.ts:51-55 | the state becomes the transition's target, and `onInitialize` runs on every component only when the call acts |
| Entities.Entity.Activate | submissions/julesv1/src/core/Entity.ts:57-61 | as above for `activate` and `onActivate` |
| Entities.Entity.Disable | submissions/julesv1/src/core/Entity.ts:63-67 | as above for `disable` and `onDisable`, which acts only on an Active entity |
| Entities.Entity.Destroy | submissions/julesv1/src/core/Entity.ts:69-76 | the entity ends Destroyed with no components; a first destroy runs `onDestroy` on the components it had, in order; a second is a no-op |
| Levels.Without | submissions/julesv1/src/core/Level.ts:30 | the id order after a deletion holds exactly the other ids |
| Levels.WithoutKeepsDistinct | submissions/julesv1/src/core/Level.ts:30 | deleting from a duplicate-free id order keeps it duplicate-free |
| Levels.Level.constructor | submissions/julesv1/src/core/Level.ts:12-15 | a new level has no entities, spec version "1.1" and a fresh, empty event bus |
| Levels.Level.CreateEntity | submissions/julesv1/src/core/Level.ts:17-24 | a taken id fails and changes nothing; otherwise a fresh Created entity without components is stored under the id, appended to the order |
| Levels.Level.RemoveEntity | submissions/julesv1/src/core/Level.ts:26-32 | an unknown id is a no-op; otherwise the entity is destroyed, ending Destroyed with no components and with the `onDestroy` calls of its components, in order, added to its hook trace, and only its key is deleted |
| Levels.Level.Dispose | submissions/julesv1/src/core/Level.ts:38-42 | every entity is destroyed, each ending Destroyed with no components and its `onDestroy` calls added to its trace, and the level is left empty |
| Levels.DestroyEach | submissions/julesv1/src/core/Level.ts:39 | `destroy()` on each of distinct entities in turn leaves every one of them destroyed as one call would |
| Levels.Level.Clear | submissions/julesv1/src/core/Level.ts:40 | `entities.clear()` leaves a valid, empty level |
| Events.Deliveries | submissions/julesv1/src/utils/EventBus.ts:29-36 | an emit delivers the event, with its payload and source, to each registered handler in registration order |
| Events.EachRegistrationCalledOnce | submissions/julesv1/src/utils/EventBus.ts:34 | a handler is called once per time it was registered |
| Events.IndexOf | submissions/julesv1/src/utils/EventBus.ts:22 | `indexOf` is -1 exactly when the handler is absent, and otherwise the position of its first occurrence |
| Events.RemoveFirst | submissions/julesv1/src/utils/EventBus.ts:19-27 | `off` removes the first registration of the handler only, and nothing when it is absent |
| Events.DispatchAppend | submissions/julesv1/src/utils/EventBus.ts:29-36 | emitting a batch of events then another is the same as emitting them all in order |
| Events.RegisteredLastIsCalledLast | submissions/julesv1/src/utils/EventBus.ts:12-17 | a handler registered last is called last, after the others in their order |
| Events.EventBus.constructor | submissions/julesv1/src/utils/EventBus.ts:10 | a new bus has no listeners |
| Events.EventBus.On | submissions/julesv1/src/utils/EventBus.ts:12-17 | the handler is appended to the type's list, which is created when missing |
| Events.EventBus.Off | submissions/julesv1/src/utils/EventBus.ts:19-27 | the type's list loses its first registration of the handler; an unknown type or handler changes nothing |
| Events.EventBus.Emit | submissions/julesv1/src/utils/EventBus.ts:29-36 | the deliveries to the type's handlers are appended to the trace in order; an unknown type delivers nothing |
| Rng.JsRem | submissions/julesv1/src/utils/SeededRNG.ts:10 | JavaScript's `%` truncates: the remainder has the sign of the dividend and is smaller than the modulus |
| Rng.JsRemVersusEuclidean | submissions/julesv1/src/utils/SeededRNG.ts:10 | JavaScript's `%` agrees with the Euclidean remainder on non-negative seeds and is that minus the modulus on negative ones |
| Rng.NextFromNonNegative | submissions/julesv1/src/utils/SeededRNG.ts:9-12 | from a non-negative seed the next seed is in [0, 233280) and the draw in [0, 1) |
| Rng.NextFromAnySeed | submissions/julesv1/src/utils/SeededRNG.ts:9-12 | from any seed the next seed is within (-233280, 233280) and the draw within (-1, 1) |
| Rng.ArithmeticIsExact | submissions/julesv1/src/utils/SeededRNG.ts:10 | once a seed is in range, `seed * 9301 + 49297` stays below 2^53, so the double arithmetic is exact and the integer model is faithful |
| Rng.Stream | submissions/julesv1/src/utils/SeededRNG.ts:9-12 | n calls of `next` give n draws |
| Rng.StreamInUnitInterval | submissions/julesv1/src/utils/SeededRNG.ts:9-12 | every draw of a stream from a non-negative seed is in [0, 1) |
| Rng.StreamSplits | submissions/julesv1/src/utils/SeededRNG.ts:9-12 | the generator is deterministic: a+b draws are a draws followed by b draws from the seed the first a leave |
| Rng.OffsetBounds | submissions/julesv1/src/utils/SeededRNG.ts:15 | `next() * (max - min)` lies between 0 and the width, on the side of the width's sign |
| Rng.RangeFromNonNegative | submissions/julesv1/src/utils/SeededRNG.ts:14-16 | from a non-negative seed `nextRange(min, max)` lies in [min, max), is min when they are equal, and in (max, min] when they are swapped |
| Rng.SeededRNG.constructor | submissions/julesv1/src/utils/SeededRNG.ts:4-6 | the generator starts from the given seed |
| Rng.SeededRNG.Next | submissions/julesv1/src/utils/SeededRNG.ts:9-12 | the seed advances by the generator's step and the result is the new seed over 233280 |
| Rng.SeededRNG.NextRange | submissions/julesv1/src/utils/SeededRNG.ts:14-16 | one step, scaled into the range |
| LogicSystems.InvocationsStep | submissions/julesv1/src/systems/LogicSystem.ts:7-24 | the pass over one more entity appends that entity's call, if any, to the calls so far |
| LogicSystems.EntitiesOf | submissions/julesv1/src/systems/LogicSystem.ts:15 | the entities called, one per invocation, in order |
| LogicSystems.InvocationsFollowIds | submissions/julesv1/src/systems/LogicSystem.ts:7-12 | scripts are called in the level's insertion order, once for each Active entity with a Logic component that has a script |
| LogicSystems.InvocationsAreCalls | submissions/julesv1/src/systems/LogicSystem.ts:11-15 | every call is the entity's own script, given the entity and `dt`, and its outcome is the script's |
| LogicSystems.FaultsDoNotStopTheLoop | submissions/julesv1/src/systems/LogicSystem.ts:14-22 | which entities are called does not depend on what the scripts do: a throwing script is caught and the loop goes on |
| LogicSystems.RunIdsExactly | submissions/julesv1/src/systems/LogicSystem.ts:9-12 | an entity is called exactly when it is in the level, Active, and has a Logic component with a script |
| LogicSystems.RunIdsAreDistinct | submissions/julesv1/src/systems/LogicSystem.ts:7 | no entity is called twice in one update |
| LogicSystems.FaultedExactly | submissions/julesv1/src/systems/LogicSystem.ts:16-17 | an error is reported exactly for the entities whose script threw |
| LogicSystems.LogicSystem.constructor | submissions/julesv1/src/systems/System.ts:4-6 | the system holds its level and the script runner and has called nothing yet |
| LogicSystems.LogicSystem.Visit | submissions/julesv1/src/systems/LogicSystem.ts:8-23 | one entity's turn: its call, if any, and its error, if any, are appended |
| LogicSystems.LogicSystem.VisitAll | submissions/julesv1/src/systems/LogicSystem.ts:7-24 | the loop appends the calls and errors of every entity in the level's order |
| LogicSystems.LogicSystem.Update | submissions/julesv1/src/systems/LogicSystem.ts:6-25 | `update(dt)` appends exactly the calls and errors of the specification over the level |
| PhysicsSystems.IntegrateClampsToFloor | submissions/julesv1/src/systems/PhysicsSystem.ts:21-30 | after a step the position is never below y = 0.5; below it the position is clamped and the y velocity zeroed, otherwise both are the unclamped Euler values |
| PhysicsSystems.PositionUsesUpdatedVelocity | submissions/julesv1/src/systems/PhysicsSystem.ts:21-24 | the integration is semi-implicit: the position moves by the velocity already updated with gravity |
| PhysicsSystems.IntegrateKeepsOtherFields | submissions/julesv1/src/systems/PhysicsSystem.ts:21-30 | a step changes only the velocity and the position |
| PhysicsSystems.RestingStaysOnFloor | submissions/julesv1/src/systems/PhysicsSystem.ts:21-30 | a body resting on the floor under downward gravity stays there with no vertical velocity |
| PhysicsSystems.StepPhysicsIsLocal | submissions/julesv1/src/systems/PhysicsSystem.ts:11-31 | an entity that is not Active or lacks Physics or Transform is untouched; otherwise only its Physics and Transform change, by one integration step |
| PhysicsSystems.PhysicsSystem.constructor | submissions/julesv1/src/systems/System.ts:4-6 | the system holds its level |
| PhysicsSystems.PhysicsSystem.StepEntity | submissions/julesv1/src/systems/PhysicsSystem.ts:12-31 | one entity's turn updates its components as the specification says |
| PhysicsSystems.PhysicsSystem.StepAt | submissions/julesv1/src/systems/PhysicsSystem.ts:12-31 | one entity's turn changes the level only at that entity |
| PhysicsSystems.PhysicsSystem.Update | submissions/julesv1/src/systems/PhysicsSystem.ts:10-33 | `update(dt)` steps every entity of the level once |
| RegionRules.BoxIsClosed | submissions/julesv1/src/systems/RegionSystem.ts:88-98 | the containment box is closed: its centre and its corners are inside exactly when the size is non-negative |
| RegionRules.InsideIsTranslationInvariant | submissions/julesv1/src/systems/RegionSystem.ts:88-98 | moving the point and the region by the same offset does not change containment |
| RegionRules.CollectRegions | submissions/julesv1/src/systems/RegionSystem.ts:14-25 | at most one region entry per entity |
| RegionRules.CollectRegionsExactly | submissions/julesv1/src/systems/RegionSystem.ts:17-25 | the regions collected are exactly the Active entities with both a Region and a Transform, each with its own component data |
| RegionRules.CollectedIdsAreDistinct | submissions/julesv1/src/systems/RegionSystem.ts:17-25 | no region is collected twice |
| RegionRules.Containing | submissions/julesv1/src/systems/RegionSystem.ts:39-44 | the containing regions are a selection of the regions |
| RegionRules.ContainingExactly | submissions/julesv1/src/systems/RegionSystem.ts:39-44 | a region is active for a subject exactly when the subject's position is inside its box |
| RegionRules.ContainingIdsAreDistinct | submissions/julesv1/src/systems/RegionSystem.ts:39-44 | a subject's new membership holds each region once |
| RegionRules.MembershipChangedIffSetsDiffer | submissions/julesv1/src/systems/RegionSystem.ts:48-60 | the size-then-elements test is set inequality of the old and new memberships |
| RegionRules.EnteredExactly | submissions/julesv1/src/systems/RegionSystem.ts:63-67 | the regions entered are exactly those in the new membership and not in the old |
| RegionRules.NoticesAt | submissions/julesv1/src/systems/RegionSystem.ts:63-74 | each enter (exit) notice is a `RegionEnter` (`RegionExit`) event carrying the subject and the region |
| RegionRules.EnterNoticeFor | submissions/julesv1/src/systems/RegionSystem.ts:63-67 | an enter notice is sent for a region exactly when it is in the list, and the enter pass sends no exits |
| RegionRules.ExitNoticeFor | submissions/julesv1/src/systems/RegionSystem.ts:70-74 | an exit notice is sent for a region exactly when it is in the list, and the exit pass sends no enters |
| RegionRules.EnterExactlyOnArrival | submissions/julesv1/src/systems/RegionSystem.ts:63-67 | a subject gets `RegionEnter` for a region exactly when it is inside it now and was not before |
| RegionRules.ExitExactlyOnDeparture | submissions/julesv1/src/systems/RegionSystem.ts:70-74 | a subject gets `RegionExit` for a region exactly when it was inside it before and is not now |
| RegionRules.EnteredEmptyIffIncluded | submissions/julesv1/src/systems/RegionSystem.ts:63-67 | nothing is entered exactly when the new membership is within the old |
| RegionRules.SilentIffUnchanged | submissions/julesv1/src/systems/RegionSystem.ts:48-74 | a subject's update emits no event exactly when its membership did not change |
| RegionRules.FirstModifier | submissions/julesv1/src/systems/RegionSystem.ts:108 | `find` gives nothing exactly when no modifier is for the property, and otherwise the first of the region's modifiers for it, every earlier one being for another property |
| RegionRules.ColorFoldIsChannelwiseFold | submissions/julesv1/src/systems/RegionSystem.ts:116-131 | the hue fold is the gravity fold applied to the colour's channels with `hue` modifiers |
| RegionRules.LastOverrideWins | submissions/julesv1/src/systems/RegionSystem.ts:107-113 | the last region in fold order with an Override for the property decides it when no later region touches it |
| RegionRules.UnmodifiedRegionsAreIgnored | submissions/julesv1/src/systems/RegionSystem.ts:107-113 | regions without a modifier for the property leave the base value |
| RegionRules.AddsAccumulate | submissions/julesv1/src/systems/RegionSystem.ts:107-113 | when every modifier is Add, the result is the base plus their sum |
| RegionRules.MultipliesAccumulate | submissions/julesv1/src/systems/RegionSystem.ts:107-113 | when every modifier is Multiply, the result is the base times their componentwise product |
| RegionRules.ConflictingOverridesLowerPriorityWins | submissions/julesv1/src/systems/RegionSystem.ts:82 | sorted by descending priority and folded in order, two conflicting Overrides resolve to the LOWER priority's value, in either input order |
| RegionRules.Resolve | submissions/julesv1/src/systems/RegionSystem.ts:100-131 | resolving keeps the entity's set of components |
| RegionRules.ResolveTouchesOnlyDerivedFields | submissions/julesv1/src/systems/RegionSystem.ts:100-131 | only the effective gravity (from the base gravity) and the effective colour (from the base colour) change; with no regions they reset to the base values |
| RegionRules.VisitNext | submissions/julesv1/src/systems/RegionSystem.ts:28-85 | the pass over one more subject reads the cache only at that subject, appends its notices and updates its cache entry |
| RegionRules.TickWorldPointwise | submissions/julesv1/src/systems/RegionSystem.ts:28-85 | the update's effect on the entities is pointwise: each entity's new body depends only on itself, the collected regions and the cache |
| RegionRules.CacheAfterAt | submissions/julesv1/src/systems/RegionSystem.ts:47-76 | after the pass, a subject's cache entry is its new membership; every other entry is the old one |
| RegionRules.TickKeepsCacheWellFormed | submissions/julesv1/src/systems/RegionSystem.ts:76 | every cached membership stays duplicate-free |
| RegionEvents.EmitEnters | submissions/julesv1/src/systems/RegionSystem.ts:63-67 | the bus receives one `RegionEnter` per region newly entered, in the new membership's order |
| RegionEvents.EmitExits | submissions/julesv1/src/systems/RegionSystem.ts:70-74 | the bus receives one `RegionExit` per region left, in the old membership's order |
| RegionEvents.SubjectTrace | submissions/julesv1/src/systems/RegionSystem.ts:63-74 | the enters then the exits are exactly the subject's notices, dispatched in that order |
| RegionSystems.ProgressStep | submissions/julesv1/src/systems/RegionSystem.ts:28-85 | the loop invariant of the subject pass survives one more entity |
| RegionSystems.ProgressDone | submissions/julesv1/src/systems/RegionSystem.ts:28-85 | once every entity has been visited, the entities, the cache and the event trace are those of the specification |
| RegionSystems.FindContaining | submissions/julesv1/src/systems/RegionSystem.ts:35-44 | the loop collects exactly the containing regions and their ids, in region order |
| RegionSystems.CompareMembership | submissions/julesv1/src/systems/RegionSystem.ts:47-60 | the size check and the element loop with `break` compute membership change |
| RegionSystems.FoldGravity | submissions/julesv1/src/systems/RegionSystem.ts:105-112 | the loop folds the first `gravity` modifier of each region into the base gravity |
| RegionSystems.FoldColor | submissions/julesv1/src/systems/RegionSystem.ts:120-128 | the loop folds the first `hue` modifier of each region into the base colour |
| RegionSystems.ResolveProperties | submissions/julesv1/src/systems/RegionSystem.ts:100-131 | `resolveProperties` writes the folded effective gravity and colour and nothing else |
| RegionSystems.ContainingStep | submissions/julesv1/src/systems/RegionSystem.ts:39-44 | one more region appends itself to the active list exactly when it contains the point |
| RegionSystems.RegionSystem.constructor | submissions/julesv1/src/systems/RegionSystem.ts:11 | a new system has an empty membership cache |
| RegionSystems.RegionSystem.GatherRegions | submissions/julesv1/src/systems/RegionSystem.ts:14-25 | the first pass collects the specification's regions and changes no entity |
| RegionSystems.RegionSystem.Track | submissions/julesv1/src/systems/RegionSystem.ts:35-76 | a subject's membership is recomputed and cached, the change flag is computed against the old cache, and its enter/exit events are emitted |
| RegionSystems.RegionSystem.ProcessSubject | submissions/julesv1/src/systems/RegionSystem.ts:31-84 | a subject's turn: events, cache update, and a re-resolve with the regions sorted by descending priority only when the membership changed |
| RegionSystems.RegionSystem.Process | submissions/julesv1/src/systems/RegionSystem.ts:29-33 | an entity that is not Active, has no Transform or is a region itself is skipped |
| RegionSystems.RegionSystem.ProcessAt | submissions/julesv1/src/systems/RegionSystem.ts:28-85 | one entity's turn changes the level only at that entity |
| RegionSystems.RegionSystem.Visit | submissions/julesv1/src/systems/RegionSystem.ts:28-85 | one iteration of the subject pass keeps the pass's invariant |
| RegionSystems.RegionSystem.VisitLoop | submissions/julesv1/src/systems/RegionSystem.ts:28-85 | the subject pass visits every entity of the level |
| RegionSystems.RegionSystem.VisitAll | submissions/julesv1/src/systems/RegionSystem.ts:28-85 | the subject pass produces the specification's entities, cache and events |
| RegionSystems.RegionSystem.Update | submissions/julesv1/src/systems/RegionSystem.ts:13-86 | `update` is the specification: entities resolved pointwise, the cache advanced, the notices dispatched in the level's order |
| PrioritySort.InsertPermutes | submissions/julesv1/src/systems/RegionSystem.ts:82 | inserting into the sorted prefix loses and adds nothing |
| PrioritySort.InsertKeepsDescending | submissions/julesv1/src/systems/RegionSystem.ts:82 | inserting keeps the order descending |
| PrioritySort.SortIsStable | submissions/julesv1/src/systems/RegionSystem.ts:82 | the priority sort is descending, a permutation, and keeps entries of equal priority in their input order (the stable `Array.prototype.sort`) |
| PrioritySort.SortPair | submissions/julesv1/src/systems/RegionSystem.ts:82 | two entries come out in descending priority, the first staying first on a tie |
| Engines.RepeatAdd | submissions/julesv1/src/core/Engine.ts:68-71 | running a steps then b steps is running a + b steps |
| Engines.StepCount | submissions/julesv1/src/core/Engine.ts:67-71 | the number of fixed steps a frame runs is the largest n with n steps fitting into the accumulated time, and none below one step |
| Engines.StepCountIsLoopCount | submissions/julesv1/src/core/Engine.ts:68-71 | the count at which the `while` loop stops is that number |
| Engines.LeftoverBounds | submissions/julesv1/src/core/Engine.ts:67-71 | what the loop leaves in the accumulator is below one step, non-negative for non-negative time, and unchanged when no step runs |
| Engines.StepsAdd | submissions/julesv1/src/core/Engine.ts:68-71 | fixed updates compose |
| Engines.StepsNext | submissions/julesv1/src/core/Engine.ts:68-71 | one more step is one more fixed update |
| Engines.StepCountSplits | submissions/julesv1/src/core/Engine.ts:67-71 | two frames run as many steps, and leave the same remainder, as one frame of their summed time |
| Engines.RepeatFrames | submissions/julesv1/src/core/Engine.ts:67-71 | any step function run for the step counts of two frames in turn is run for the step count of their summed time |
| Engines.TwoFramesAsOne | submissions/julesv1/src/core/Engine.ts:61-78 | the simulation depends only on the total elapsed time, not on how it is split into frames |
| Engines.FixedUpdateRestsOnFloor | submissions/julesv1/src/core/Engine.ts:45-49 | after a fixed update (regions, logic, physics in that order) every moving body is at or above the floor, and every other body is as the region pass left it |
| Engines.FixedSystems.constructor | submissions/julesv1/src/core/Engine.ts:45-49 | loading a level creates fresh Region, Logic and Physics systems on it, with empty caches and logs |
| Engines.FixedSystems.RegionPhase | submissions/julesv1/src/core/Engine.ts:69 | the first fixed system is the region update |
| Engines.FixedSystems.LogicPhase | submissions/julesv1/src/core/Engine.ts:69 | the second is the logic update with the fixed step |
| Engines.FixedSystems.PhysicsPhase | submissions/julesv1/src/core/Engine.ts:69 | the third is the physics update with the fixed step |
| Engines.FixedSystems.RegionThenLogic | submissions/julesv1/src/core/Engine.ts:69 | the first two systems in order |
| Engines.FixedSystems.Update | submissions/julesv1/src/core/Engine.ts:69 | `fixedSystems.forEach(s => s.update(fixedTimeStep))` is one fixed update of the whole simulation |
| Engines.FixedSystems.RunSteps | submissions/julesv1/src/core/Engine.ts:67-71 | the accumulator loop runs exactly the step count of fixed updates and leaves the remainder |
| Engines.FixedSystems.Loop | submissions/julesv1/src/core/Engine.ts:68-71 | the `while` loop: after k iterations the accumulator has lost k steps and is below one step |
| Engines.FixedSystems.UpdateAfter | submissions/julesv1/src/core/Engine.ts:69 | one more iteration adds one fixed update |
| Engines.GameEngine.constructor | submissions/julesv1/src/core/Engine.ts:13-32 | no level, not running, an empty accumulator and a fresh generator seeded 12345 |
| Engines.DisposeBeside | submissions/julesv1/src/core/Engine.ts:39-41 | disposing the previous level destroys every entity it had, `onDestroy` calls included, and empties it; the level being loaded stays valid and, when it is a different level, untouched |
| Engines.GameEngine.LoadLevel | submissions/julesv1/src/core/Engine.ts:38-55 | the previous level's entities are all destroyed with their `onDestroy` calls; the new level becomes active with fresh systems; a different new level is not touched, and reloading the active level leaves it empty |
| Engines.GameEngine.Start | submissions/julesv1/src/core/Engine.ts:57-59 | the engine is running afterwards (a second start is a no-op) |
| Engines.GameEngine.Stop | submissions/julesv1/src/core/Engine.ts:81-84 | the engine is not running afterwards |
| Engines.GameEngine.Frame | submissions/julesv1/src/core/Engine.ts:61-78 | with no level or while stopped nothing happens: accumulator, renders and everything the fixed systems see stay as they were; otherwise the accumulator gains `dt`, the fixed updates run the step count of times, the accumulator keeps the remainder and the frame is rendered |
| Engines.GameEngine.Advance | submissions/julesv1/src/core/Engine.ts:64-77 | the accumulator gains `dt`, the fixed updates run the step count of times, the remainder is kept and the frame is rendered |
| Engines.GameEngine.EndFrame | submissions/julesv1/src/core/Engine.ts:74-77 | the remainder is stored and the frame rendered, and nothing the fixed systems see changes |
| ZaiData.GetComponentFindsFirst | submissions/zAI/assets/js/entity.js:76 | `getComponent` finds nothing exactly when no component has the type, and otherwise the first one that has it |
| ZaiData.Views | submissions/zAI/assets/js/systems.js:6-7 | a level's runtime entities are viewed in the Map's insertion order, one view per entity |
| ZaiLoading.BuildNoneSticks | submissions/zAI/assets/js/level.js:32-35 | once building a level has thrown, building it further throws too |
| ZaiLoading.FailureSticks | submissions/zAI/assets/js/engine.js:37-40 | once loading has thrown at a level, the later levels are not loaded |
| ZaiLoading.BuildLevelSucceeds | submissions/zAI/assets/js/entity.js:14-16 | a level builds exactly when every entity record has a Transform component (reading `props.position` of a missing one throws) |
| ZaiLoading.BuildLevelKeys | submissions/zAI/assets/js/level.js:32-35 | a built level has one runtime entity per distinct record id |
| ZaiLoading.BuildLevelSlots | submissions/zAI/assets/js/level.js:32-35 | each runtime entity refers to the LAST record with its id (`Map.set` overwrites) and is built from it |
| ZaiLoading.LoadLevelsSucceeds | submissions/zAI/assets/js/engine.js:37-40 | loading succeeds exactly when every level builds |
| ZaiLoading.LoadLevelsKeys | submissions/zAI/assets/js/engine.js:37-40 | the loaded levels are keyed by level ids of the project, all of them when loading succeeds |
| ZaiLoading.LoadLevelsSlots | submissions/zAI/assets/js/engine.js:37-40 | each loaded level refers to the last level record with its id and is built from it |
| ZaiLoading.LoadLevelsFit | submissions/zAI/assets/js/engine.js:33-42 | whatever loading produces, even after a failure, refers to the project consistently |
| ZaiLoading.NewLevel | submissions/zAI/assets/js/level.js:32-35 | the loop that builds a level's entities computes the level the specification builds |
| ZaiLoading.LoadAll | submissions/zAI/assets/js/engine.js:33-42 | `loadProject`'s loop over the level records computes the specification's load |
| ZaiLoading.MarkNothing | submissions/zAI/assets/js/entity.js:12 | marking no entity changes nothing |
| ZaiLoading.MarkOneMore | submissions/zAI/assets/js/entity.js:12 | one more `initialize` marks one more record active |
| ZaiLoading.MarkChangesStatesOnly | submissions/zAI/assets/js/entity.js:12 | `initialize` changes the `state` field of exactly the targeted records and nothing else of the project |
| ZaiLoading.MarkKeepsFit | submissions/zAI/assets/js/entity.js:12 | state changes keep the runtime levels consistent with the project |
| ZaiLoading.LevelTargetsExactly | submissions/zAI/assets/js/level.js:38-40 | `initializeEntities` targets exactly the records of the level's runtime entities |
| ZaiLoading.TargetsExactly | submissions/zAI/assets/js/engine.js:55 | the play toggle targets exactly the records of every loaded level's entities |
| ZaiLoading.InitializeLevel | submissions/zAI/assets/js/level.js:38-40 | the loop over a level's entities marks its records active |
| ZaiLoading.Initialize | submissions/zAI/assets/js/engine.js:55 | the loop over the levels marks every loaded entity's record active and nothing else |
| ZaiSystems.ApplyEach | submissions/zAI/assets/js/systems.js:19-27 | the loop over a region's overrides applies them in order |
| ZaiSystems.ResolveFor | submissions/zAI/assets/js/systems.js:9-29 | an object's effective properties are reset and folded from the touching regions sorted by descending priority |
| ZaiSystems.RegionFor | submissions/zAI/assets/js/systems.js:8-30 | one object's turn of the region update |
| ZaiSystems.UpdateRegionsIn | submissions/zAI/assets/js/systems.js:6-30 | the region update of one level: only active objects get new effective properties |
| ZaiSystems.UpdateRegions | submissions/zAI/assets/js/systems.js:4-32 | `RegionSystem.update` over every level |
| ZaiSystems.LogicFor | submissions/zAI/assets/js/systems.js:39-57 | one entity's turn: its script call, if any, and its movement |
| ZaiSystems.UpdateLogicIn | submissions/zAI/assets/js/systems.js:39-58 | the logic update of one level, in the Map's order |
| ZaiSystems.UpdateLogic | submissions/zAI/assets/js/systems.js:37-60 | `LogicSystem.update` over every level, in the levels' load order |
| ZaiSystems.ApplyOverrideCases | submissions/zAI/assets/js/systems.js:20-26 | an override sets its key when the current value is missing or falsy (0), and otherwise overrides, adds or multiplies as its mode says; an unknown mode keeps the value; other keys are untouched |
| ZaiSystems.ApplyOverridesKeys | submissions/zAI/assets/js/systems.js:19-27 | after the overrides every key they name is set |
| ZaiSystems.OnlyContributingRegionsCount | submissions/zAI/assets/js/systems.js:16-18 | regions without a PropertyOverride component do not affect the result |
| ZaiSystems.TouchingExactly | submissions/zAI/assets/js/systems.js:10 | a region is active for an object exactly when the two meshes intersect |
| ZaiSystems.RegionsExactly | submissions/zAI/assets/js/systems.js:7 | the regions are exactly the active `region` entities |
| ZaiSystems.ResolveOrder | submissions/zAI/assets/js/systems.js:11-15 | the touching regions are sorted by descending priority, stably, as a permutation |
| ZaiSystems.LowestPriorityOverrideWins | submissions/zAI/assets/js/systems.js:11-26 | of two conflicting `override` regions the lower priority's value is the one left, as it is applied last |
| ZaiSystems.FoldNext | submissions/zAI/assets/js/systems.js:16-29 | one more region applies its overrides after the others |
| ZaiSystems.ApplySingle | submissions/zAI/assets/js/systems.js:19 | a one-override list applies that override |
| ZaiSystems.SameSceneSameViews | submissions/zAI/assets/js/systems.js:6-7 | the views the systems read depend only on the scene, not on effective properties |
| ZaiSystems.ResolveForgetsPast | submissions/zAI/assets/js/systems.js:9 | effective properties are recomputed from scratch each update: the previous ones do not matter |
| ZaiSystems.RegionUpdateFrame | submissions/zAI/assets/js/systems.js:4-32 | the region update changes only the effective properties of active objects |
| ZaiSystems.RegionUpdateIdempotent | submissions/zAI/assets/js/systems.js:4-32 | running the region update twice is running it once |
| ZaiSystems.CallIds | submissions/zAI/assets/js/systems.js:44-45 | one call per script run, naming the entity |
| ZaiSystems.CallsFollowScripts | submissions/zAI/assets/js/systems.js:39-42 | scripts run, in the Map's order, for exactly the active entities with a Script component |
| ZaiSystems.CallsRunTheirScripts | submissions/zAI/assets/js/systems.js:41-45 | each call runs the entity's first Script component's source with the fixed `dt` |
| ZaiSystems.ErrorNamesExactly | submissions/zAI/assets/js/systems.js:46-47 | an error is logged, under the entity's name, exactly for each script that threw |
| ZaiSystems.StepAlongKeys | submissions/zAI/assets/js/systems.js:53-56 | W and S move along z, A and D along x, by the speed; opposite keys cancel; y never changes |
| ZaiSystems.LogicUpdateMovesOnly | submissions/zAI/assets/js/systems.js:50-57 | the logic update changes only node positions, and only of active entities with a Movement component and a node, by the keys at the effective speed or else the component's |
| ZaiEngine.UpdatesKeepLevelLayout | submissions/zAI/assets/js/engine.js:78-82 | a fixed update keeps each level's entities and their records |
| ZaiEngine.FixedUpdateKeepsFit | submissions/zAI/assets/js/engine.js:78-82 | a fixed update keeps the levels and their link to the project |
| ZaiEngine.LayoutKeepsFit | submissions/zAI/assets/js/engine.js:78-82 | levels with the same layout are equally consistent with the project |
| ZaiEngine.FixedUpdateAppendsLogs | submissions/zAI/assets/js/engine.js:78-82 | a fixed update only appends to the script and error logs, and every new call ran with the fixed step |
| ZaiEngine.WorldCallsDt | submissions/zAI/assets/js/systems.js:45 | every script call in an update gets that update's `dt` |
| ZaiEngine.StepsAdd | submissions/zAI/assets/js/engine.js:68-71 | fixed updates compose |
| ZaiEngine.TwoFramesAsOne | submissions/zAI/assets/js/engine.js:63-76 | the simulation depends only on the total elapsed time while playing, not on how it is split into frames |
| ZaiEngine.FixedStep | submissions/zAI/assets/js/engine.js:78-82 | `fixedUpdate(dt)` runs the region then the logic update |
| ZaiEngine.RunFixed | submissions/zAI/assets/js/engine.js:66-71 | the accumulator loop runs exactly the step count of fixed updates and leaves the remainder |
| ZaiEngine.GameEngine.constructor | submissions/zAI/assets/js/engine.js:3-22 | the engine starts from the project, loaded, not playing, with no snapshot, no keys and an empty accumulator |
| ZaiEngine.GameEngine.LoadProject | submissions/zAI/assets/js/engine.js:33-42 | the project is replaced and its levels rebuilt as the specification loads them, consistently even when a level throws; a `null` project leaves no levels and fails |
| ZaiEngine.GameEngine.TogglePlay | submissions/zAI/assets/js/engine.js:44-61 | stopping restores the snapshot (`null` when there is none) and reloads it, and stops only when the reload completes; starting snapshots the project and marks every loaded entity's record active |
| ZaiEngine.GameEngine.StopPlaying | submissions/zAI/assets/js/engine.js:45-52 | the project becomes the snapshot and the snapshot is cleared; the engine stops exactly when the reload completes; without a snapshot every level is cleared and the reload fails |
| ZaiEngine.GameEngine.StartPlaying | submissions/zAI/assets/js/engine.js:53-59 | the snapshot is the old project, the project has every loaded entity's record marked active, and the engine plays |
| ZaiEngine.GameEngine.Play | submissions/zAI/assets/js/engine.js:54-56 | the old project becomes the snapshot, the marked project is installed and the play flag is set, keeping the levels consistent |
| ZaiEngine.GameEngine.Frame | submissions/zAI/assets/js/engine.js:63-76 | while playing, the accumulator gains `dt`, the fixed updates run the step count of times and the remainder is kept; otherwise nothing changes; every level is rendered each frame |
| ZaiEngine.GameEngine.Advance | submissions/zAI/assets/js/engine.js:66-71 | the accumulator gains `dt`, the fixed updates run the step count of times and the remainder is kept |
| ZaiEngine.GameEngine.SetKey | submissions/zAI/assets/js/editor.js:7-14 | a key down records the key as held, a key up releases it |
| GaiScene.FirstIndex | submissions/gAI/services/EngineService.ts:105-108 | the first entity of the level with a given id |
| GaiScene.IdsExactly | submissions/gAI/services/EngineService.ts:103-108 | `processedIds` holds exactly the ids of the level's entities |
| GaiScene.SyncAllKeys | submissions/gAI/services/EngineService.ts:105-148 | syncing the entities keeps every node and adds one per new id |
| GaiScene.SyncLevelKeys | submissions/gAI/services/EngineService.ts:90-117 | after `syncLevel` the node map is keyed by exactly the level's entity ids |
| GaiScene.SyncEntityKinds | submissions/gAI/services/EngineService.ts:122-148 | `syncEntity` never recreates a node; a missing one is created with the entity's kind |
| GaiScene.SyncAllKeepsKinds | submissions/gAI/services/EngineService.ts:122-148 | a node keeps the kind it was created with, whatever the entity later holds |
| GaiScene.SyncAllNewKinds | submissions/gAI/services/EngineService.ts:129-147 | a new id's node gets the kind of the FIRST entity with that id: a box, sphere or plane Mesh gives a mesh, another Mesh shape or no Mesh and no Camera a plain node, a Camera without a Mesh a camera |
| GaiScene.EditorShowsTransforms | submissions/gAI/services/EngineService.ts:154-176 | while editing, each node shows the position and rotation of the last entity with its id that has a Transform |
| GaiScene.PlayingSyncLeavesMovingNodes | submissions/gAI/services/EngineService.ts:154-159 | while playing, a sync does not move an entity whose Physics says `isStatic: false`: the game loop owns its transform |
| GaiScene.UnsetIsStaticIsStaticAndMoving | submissions/gAI/services/EngineService.ts:156-159 | a Physics component without `isStatic` counts as static for the sync (`?? true`) but as dynamic for the loop (`!phys.isStatic`): the loop moves it and every sync while playing writes its transform back |
| GaiScene.SyncAllKeepsMaterialsCached | submissions/gAI/services/EngineService.ts:192-200 | every material a mesh node uses stays in the cache, which only grows |
| GaiLoop.StepAll | submissions/gAI/services/EngineService.ts:237-306 | the loop keeps the number of entities |
| GaiLoop.GatherExactly | submissions/gAI/services/EngineService.ts:214-231 | the regions are exactly the entities with a Region component whose node is a mesh, each with the bounds of that node |
| GaiLoop.RegionOrder | submissions/gAI/services/EngineService.ts:233-234 | the regions are sorted by descending priority, stably, as a permutation |
| GaiLoop.NoScalingRegionKeepsScale | submissions/gAI/services/EngineService.ts:252-262 | regions that do not contain the point or have no gravity scale leave the scale unchanged |
| GaiLoop.OverrideResetsScale | submissions/gAI/services/EngineService.ts:259 | an Override region containing the point discards what the regions before it did |
| GaiLoop.LowestPriorityOverrideDecides | submissions/gAI/services/EngineService.ts:233-262 | when the lowest-priority scaling region is an Override, its value is the gravity scale |
| GaiLoop.TintIsLastWriter | submissions/gAI/services/EngineService.ts:264-267 | no tint exactly when no containing region has a non-empty tint; otherwise the last such region's |
| GaiLoop.IntegrateKeepsAboveFloor | submissions/gAI/services/EngineService.ts:284-298 | after a step the node is never below y = 0.5, and x and z move by the velocity, which they keep |
| GaiLoop.IntegrateInFlight | submissions/gAI/services/EngineService.ts:284-292 | above the floor the position moves by the velocity after gravity, gravity adds `g.y * scale * dt` when used, and nothing changes the velocity otherwise |
| GaiLoop.RestingStaysResting | submissions/gAI/services/EngineService.ts:284-298 | a body on the floor at rest under downward (scaled) gravity stays there |
| GaiLoop.StepAllLeavesRest | submissions/gAI/services/EngineService.ts:237 | the entities not yet visited are untouched |
| GaiLoop.StepEntityFrame | submissions/gAI/services/EngineService.ts:237-306 | one entity's turn touches only its own entity and, when it moves and has a node, only that node, leaving it on or above the floor |
| GaiLoop.StepAllFrame | submissions/gAI/services/EngineService.ts:237-306 | the loop keeps the node map's keys and kinds and leaves the nodes of non-moving entities alone |
| GaiLoop.StepAllAboveFloor | submissions/gAI/services/EngineService.ts:295-298 | every moving entity with a node ends on or above the floor |
| GaiLoop.GameLoopFrame | submissions/gAI/services/EngineService.ts:208-307 | `runGameLoop` keeps the node map's keys and kinds, moves only nodes of dynamic entities, and leaves each of them on or above the floor |
| GaiEngine.GatherRegions | submissions/gAI/services/EngineService.ts:214-231 | the gathering loop collects the specification's regions |
| GaiEngine.ResolveAt | submissions/gAI/services/EngineService.ts:249-269 | the loop over the regions computes the gravity scale from 1 and the tint from none |
| GaiEngine.Advance | submissions/gAI/services/EngineService.ts:284-298 | the physics step computes the specification's integration |
| GaiEngine.StepAt | submissions/gAI/services/EngineService.ts:238-305 | one entity's turn: dynamic entities with a node get the overlay of their tint, the new velocity and the new position |
| GaiEngine.PlaceNode | submissions/gAI/services/EngineService.ts:154-177 | the transform is written only when not playing or static, and the scale is not written to a camera |
| GaiEngine.DressNode | submissions/gAI/services/EngineService.ts:179-201 | a mesh node with a Mesh component gets its visibility, region debug look and material |
| GaiEngine.Simulate | submissions/gAI/services/EngineService.ts:213-306 | the loop over the entities, after gathering and sorting the regions, computes the specification's game loop |
| GaiEngine.EngineService.constructor | submissions/gAI/services/EngineService.ts:27-35 | a new service has no nodes, no materials, no camera, is not playing and holds no level |
| GaiEngine.EngineService.SyncEntity | submissions/gAI/services/EngineService.ts:119-202 | the scene changes as one `syncEntity` of the specification |
| GaiEngine.EngineService.SyncLevel | submissions/gAI/services/EngineService.ts:90-117 | the flag and level are recorded, every entity is synced in order, and nodes of removed entities are deleted; the material cache stays complete |
| GaiEngine.EngineService.SyncEntities | submissions/gAI/services/EngineService.ts:103-108 | the first pass syncs every entity in order and collects their ids |
| GaiEngine.EngineService.DropUnprocessed | submissions/gAI/services/EngineService.ts:111-116 | the second pass deletes exactly the nodes whose id was not processed |
| GaiEngine.EngineService.RunGameLoop | submissions/gAI/services/EngineService.ts:208-307 | without a level nothing changes; otherwise the nodes and the level's velocities become the specification's game loop result |
| GaiEngine.EngineService.Frame | submissions/gAI/services/EngineService.ts:48-58 | the game loop runs on a frame only while playing |

## Left out

- **Not modelled:**
  - rendering and all Babylon.js objects: scenes, meshes, materials, cameras, lights, gizmos, `scene.render()`, `RenderSystem`, resize handlers;
  - the DOM: the play button, `Editor.refresh`, `LOG` formatting, `setViews`, `pickEntity`, `dispose` of the gAI service;
  - `clearColor`/`gravity` writes of `syncLevel` beyond the level gravity the loop reads.
- **Numbers:** IEEE doubles are modelled as exact reals. `Rng.ArithmeticIsExact` shows the generator's integer arithmetic stays below 2^53, so it is exact there. Colours are RGB triples of reals; hex parsing and `toHexString` are left out.
- **Outside code as parameters:**
  - script compilation and execution (`new Function`, `logic.script`) is a parameter mapping script and entity to success or a caught fault, and scripts have no side effects on the model's state;
  - Babylon's `intersectsMesh` (zAI) and `BoundingInfo.intersectsPoint` (gAI) are parameters. The gAI parameter `Inside` takes the region's node, which records no mesh shape or size: it stands for that node's `BoundingInfo`, whether the mesh is a box, a sphere or a plane;
  - `getDeltaTime` is the `dt` parameter of each frame.
- **Components and nodes:**
  - julesv1 components are values owned by their entity. Aliasing of component objects between entities is not modelled, and neither are component hooks beyond the order in which they are called.
  - The gAI node's name, `metadata` and material objects are left out. A material is identified by its colour.
- **julesv1 details:**
  - `Level.update` is empty in the source and is not modelled.
  - `globalVariables` and `localVariables` are never used by the core and are left out.
- **zAI details:**
  - The JSON snapshot round trip (`JSON.stringify`/`JSON.parse`) is taken as the identity on project data.
  - `TransformSystem.update` and `RenderSystem.update` are empty, so a fixed update is the region update then the logic update.
  - `createVisuals` is reduced to whether an entity gets a node and where. Aliasing of the argument given to `loadProject` is not modelled.
  - The gizmo and selection state are editor state and are left out.
- **gAI details:**
  - `App.tsx` sharing the velocity objects between React state and the service is modelled as the service's own copy of the level, whose Physics velocities the loop updates.
  - The `!this.scene` guards are assumed to pass.
  - `Array.prototype.sort` is modelled as a stable insertion sort on priorities (the `PrioritySort` module).
- Events.EventBus.Emit: handlers are ids, and a call is a delivery appended to the trace. Three behaviours of real handlers are not modelled. A handler that throws stops the `forEach` of `emit` and propagates out of `emit`, and so out of `RegionSystem.update`. A handler that calls `on` or `off` during `emit` changes which handlers run. A handler's own side effects are not modelled either.
- Rng.SeededRNG.constructor: seeds are integers. The source accepts any number, and a fractional seed is outside the model.
- ZaiEngine.GameEngine.constructor: ignores whether loading the initial project succeeded (the source would throw out of the constructor).
