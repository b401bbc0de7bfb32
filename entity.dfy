/** An entity of julesv1/src/core/Entity.ts: an id, a lifecycle state and a
    map of components keyed by component class, kept in insertion order as a
    JavaScript `Map` iterates it. The source keys the map by the class's
    `name` string; `NamesAreDistinct` shows that name and class determine each
    other, so the model keys it by `Kind`. */
module Entities {
  import opened Wrappers
  import opened Constants
  import opened Components

  /** The four component hooks. The base class's hooks do nothing, so what the
      model records is which hook ran on which component, and in what order. */
  datatype Hook = OnInitialize | OnActivate | OnDisable | OnDestroy

  datatype HookCall = HookCall(hook: Hook, component: Kind)

  /** The calls made by `this.components.forEach(c => c.<hook>())`. */
  function HookCalls(h: Hook, names: seq<Kind>): (r: seq<HookCall>)
    ensures |r| == |names|
    ensures forall i | 0 <= i < |r| :: r[i] == HookCall(h, names[i])
  {
    if names == [] then [] else HookCalls(h, names[..|names| - 1]) + [HookCall(h, names[|names| - 1])]
  }

  /** The hooks `addComponent` runs on the new component, given the entity's state. */
  function AddHooks(s: LifecycleState, name: Kind): seq<HookCall> {
    (if s == Initialized || s == Active then [HookCall(OnInitialize, name)] else [])
    + (if s == Active then [HookCall(OnActivate, name)] else [])
  }

  // ---- The lifecycle state machine, on values ----

  datatype Transition = Initialize | Activate | Disable | Destroy

  /** Whether a transition acts in a state; in every other state it is a no-op. */
  predicate Acts(t: Transition, s: LifecycleState) {
    match t
    case Initialize => s == Created
    case Activate => s != Active
    case Disable => s == Active
    case Destroy => s != Destroyed
  }

  function Target(t: Transition): LifecycleState {
    match t
    case Initialize => Initialized
    case Activate => Active
    case Disable => Disabled
    case Destroy => Destroyed
  }

  function HookFor(t: Transition): Hook {
    match t
    case Initialize => OnInitialize
    case Activate => OnActivate
    case Disable => OnDisable
    case Destroy => OnDestroy
  }

  function Next(t: Transition, s: LifecycleState): LifecycleState {
    if Acts(t, s) then Target(t) else s
  }

  /** The state after a sequence of transitions. */
  function Run(ts: seq<Transition>, s: LifecycleState): LifecycleState {
    if ts == [] then s else Run(ts[1..], Next(ts[0], s))
  }

  /** Each transition is idempotent: applying it a second time changes nothing. */
  lemma TransitionsAreIdempotent(t: Transition, s: LifecycleState)
    ensures Next(t, Next(t, s)) == Next(t, s)
    ensures !Acts(t, Next(t, s))
  {
  }

  /** Destroyed is left only by `activate`, which has no guard against it. */
  lemma DestroyedIsLeftOnlyByActivate(t: Transition)
    ensures Next(t, Destroyed) == (if t == Activate then Active else Destroyed)
  {
  }

  /** Once destroyed, an entity stays destroyed through any run of transitions
      that contains no `activate`. */
  lemma {:induction false} DestroyedStaysWithoutActivate(ts: seq<Transition>, s: LifecycleState)
    requires s == Destroyed
    requires forall i | 0 <= i < |ts| :: ts[i] != Activate
    ensures Run(ts, s) == Destroyed
  {
    if ts != [] {
      DestroyedIsLeftOnlyByActivate(ts[0]);
      DestroyedStaysWithoutActivate(ts[1..], Next(ts[0], s));
    }
  }

  /** `Unloaded` is never reached: no run of transitions from `Created` ends there. */
  lemma {:induction false} UnloadedIsUnreachable(ts: seq<Transition>, s: LifecycleState)
    requires s != Unloaded
    ensures Run(ts, s) != Unloaded
  {
    if ts != [] {
      UnloadedIsUnreachable(ts[1..], Next(ts[0], s));
    }
  }

  /** `initialize` moves to Initialized only from Created; from every later
      state, Active included, it changes nothing. */
  lemma InitializeOnlyFromCreated(s: LifecycleState)
    ensures Next(Initialize, s) == Initialized <==> s == Created || s == Initialized
    ensures s != Created ==> Next(Initialize, s) == s
  {
  }

  class Entity {
    const id: string
    var state: LifecycleState
    var components: map<Kind, Component>
    /** The keys of `components` in insertion order. */
    var order: seq<Kind>
    /** Every hook call made on this entity's components so far. */
    var hooks: seq<HookCall>

    /** Keys are distinct, each key is its component's class, every component's
        owner is this entity, and a destroyed entity holds no component. */
    ghost predicate Valid()
      reads this
    {
      && (state == Destroyed ==> components == map[])
      && (forall i, j | 0 <= i < j < |order| :: order[i] != order[j])
      && (forall i | 0 <= i < |order| :: order[i] in components)
      && (forall n | n in components :: n in order && components[n].Kind() == n && components[n].owner == id)
    }

    constructor (id: string)
      ensures Valid()
      ensures this.id == id && state == Created && components == map[] && order == [] && hooks == []
    {
      this.id := id;
      state := Created;
      components := map[];
      order := [];
      hooks := [];
    }

    /** `addComponent(Ctor, data)`. */
    method AddComponent(kind: Kind, data: Option<Schema>) returns (r: Result<Component, LifecycleError>)
      requires Valid()
      modifies this
      ensures Valid()
      ensures state == old(state)
      ensures old(state) == Destroyed ==>
        && r == Failure(DestroyedEntity(id))
        && components == old(components) && order == old(order) && hooks == old(hooks)
      ensures old(state) != Destroyed ==>
        var c := Construct(kind, id, data);
        && r == Success(c)
        && components == old(components)[kind := c]
        && order == (if kind in old(components) then old(order) else old(order) + [kind])
        && hooks == old(hooks) + AddHooks(old(state), kind)
    {
      if state == Destroyed {
        return Failure(DestroyedEntity(id));
      }
      var c := Construct(kind, id, data);
      Store(c);
      RunAddHooks(kind);
      r := Success(c);
    }

    /** The map update of `addComponent`: a new class goes to the end of the
        insertion order, an existing one keeps its place. */
    method Store(c: Component)
      requires Valid() && state != Destroyed && c.owner == id
      modifies this`components, this`order
      ensures Valid()
      ensures components == old(components)[c.Kind() := c]
      ensures order == (if c.Kind() in old(components) then old(order) else old(order) + [c.Kind()])
    {
      var k := c.Kind();
      if k !in components {
        order := order + [k];
      }
      components := components[k := c];
    }

    /** The hooks of `addComponent`: `onInitialize` once the entity is
        initialized, then `onActivate` if it is active. */
    method RunAddHooks(k: Kind)
      modifies this`hooks
      ensures hooks == old(hooks) + AddHooks(state, k)
    {
      if state == Initialized || state == Active {
        hooks := hooks + [HookCall(OnInitialize, k)];
      }
      if state == Active {
        hooks := hooks + [HookCall(OnActivate, k)];
      }
    }

    /** `getComponent(name)`: the component stored under that class, if any. */
    function GetComponent(k: Kind): (r: Option<Component>)
      reads this
      requires Valid()
      ensures r.Some? <==> k in components
      ensures r.Some? ==> r.value.Kind() == k && r.value.owner == id
    {
      if k in components then Some(components[k]) else None
    }

    /** Replaces the value of a component already present (the systems write
        derived fields, position and velocity this way). */
    method Replace(c: Component)
      requires Valid() && c.Kind() in components && c.owner == id
      modifies this`components
      ensures Valid()
      ensures components == old(components)[c.Kind() := c]
    {
      components := components[c.Kind() := c];
    }

    /** Runs one hook on every component, in insertion order. */
    method RunHooks(h: Hook)
      modifies this`hooks
      ensures hooks == old(hooks) + HookCalls(h, order)
    {
      var i := 0;
      while i < |order|
        invariant 0 <= i <= |order|
        invariant hooks == old(hooks) + HookCalls(h, order[..i])
      {
        assert order[..i + 1][..i] == order[..i];
        hooks := hooks + [HookCall(h, order[i])];
        i := i + 1;
      }
      assert order[..|order|] == order;
    }

    /** `initialize()`: acts only from Created. */
    method Initialize()
      requires Valid()
      modifies this`state, this`hooks
      ensures Valid()
      ensures state == Next(Transition.Initialize, old(state))
      ensures hooks == old(hooks) + if Acts(Transition.Initialize, old(state)) then HookCalls(OnInitialize, order) else []
    {
      if state != Created {
        return;
      }
      state := Initialized;
      RunHooks(OnInitialize);
    }

    /** `activate()`: a no-op when already Active, otherwise Active from any
        state (Destroyed included). */
    method Activate()
      requires Valid()
      modifies this`state, this`hooks
      ensures Valid()
      ensures state == Next(Transition.Activate, old(state))
      ensures hooks == old(hooks) + if Acts(Transition.Activate, old(state)) then HookCalls(OnActivate, order) else []
    {
      if state == Active {
        return;
      }
      state := Active;
      RunHooks(OnActivate);
    }

    /** `disable()`: acts only from Active. */
    method Disable()
      requires Valid()
      modifies this`state, this`hooks
      ensures Valid()
      ensures state == Next(Transition.Disable, old(state))
      ensures hooks == old(hooks) + if Acts(Transition.Disable, old(state)) then HookCalls(OnDisable, order) else []
    {
      if state != Active {
        return;
      }
      state := Disabled;
      RunHooks(OnDisable);
    }

    /** `destroy()`: the first call runs every `onDestroy` and empties the map;
        later calls change nothing. */
    method Destroy()
      requires Valid()
      modifies this
      ensures Valid()
      ensures state == Destroyed && components == map[]
      ensures old(state) == Destroyed ==> order == old(order) && hooks == old(hooks)
      ensures old(state) != Destroyed ==>
        components == map[] && order == [] && hooks == old(hooks) + HookCalls(OnDestroy, old(order))
      ensures DestroyedSince(this)
    {
      if state == Destroyed {
        return;
      }
      state := Destroyed;
      RunHooks(OnDestroy);
      components := map[];
      order := [];
    }
  }

  /** `e` as `destroy()` leaves it: Destroyed and without components, with
      the `onDestroy` calls of its components added to its trace unless it
      was Destroyed already. */
  twostate predicate DestroyedSince(e: Entity)
    reads e
  {
    && e.state == Destroyed && e.components == map[] && e.order == []
    && e.hooks == old(e.hooks) + (if old(e.state) == Destroyed then [] else HookCalls(OnDestroy, old(e.order)))
  }
}
