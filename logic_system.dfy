/** julesv1/src/systems/LogicSystem.ts: every active entity whose Logic
    component holds a compiled script has that script called with the entity
    and dt, in the level's insertion order; a script that throws is reported
    and the loop goes on with the next entity.

    A script is opaque code: the model sees it through `run`, an oracle that
    says whether the call returned or threw. What the model records is the
    call itself (an `Invocation`) and the reported error. */
module LogicSystems {
  import opened Constants
  import opened Wrappers
  import opened Components
  import opened Entities
  import opened Levels
  import opened SeqUtil

  datatype Outcome = Ok | Fault

  /** The oracle: the outcome of calling script `h` on entity `id` with `dt`. */
  type ScriptRunner = (ScriptHandle, string, real) -> Outcome

  datatype Invocation = Invocation(entity: string, script: ScriptHandle, dt: real, outcome: Outcome)

  /** An entity is run when it is active and its Logic component has a script. */
  predicate Runs(b: Body) {
    && b.state == Active
    && LogicKind in b.components && b.components[LogicKind].Logic?
    && b.components[LogicKind].script.Some?
  }

  function ScriptOf(b: Body): ScriptHandle
    requires Runs(b)
  {
    b.components[LogicKind].script.value
  }

  /** The call made for the entity `id` whose state and components are `b`:
      none unless it runs. */
  function CallOn(id: string, b: Body, dt: real, run: ScriptRunner): seq<Invocation> {
    if Runs(b) then [Invocation(id, ScriptOf(b), dt, run(ScriptOf(b), id, dt))] else []
  }

  /** The call the loop makes for one id. */
  function Call(w: map<string, Body>, id: string, dt: real, run: ScriptRunner): seq<Invocation> {
    if id in w then CallOn(id, w[id], dt, run) else []
  }

  /** The calls made by one `update(dt)`, in iteration order. */
  function Invocations(w: map<string, Body>, ids: seq<string>, dt: real, run: ScriptRunner): seq<Invocation> {
    if ids == [] then []
    else Invocations(w, ids[..|ids| - 1], dt, run) + Call(w, ids[|ids| - 1], dt, run)
  }

  lemma InvocationsStep(w: map<string, Body>, ids: seq<string>, i: nat, dt: real, run: ScriptRunner)
    requires i < |ids|
    ensures Invocations(w, ids[..i + 1], dt, run) == Invocations(w, ids[..i], dt, run) + Call(w, ids[i], dt, run)
  {
    assert ids[..i + 1][..i] == ids[..i];
  }

  /** The ids of the entities that are run, in iteration order. */
  function RunIds(w: map<string, Body>, ids: seq<string>): seq<string> {
    if ids == [] then []
    else
      var id := ids[|ids| - 1];
      RunIds(w, ids[..|ids| - 1]) + if id in w && Runs(w[id]) then [id] else []
  }

  function EntitiesOf(invs: seq<Invocation>): (r: seq<string>)
    ensures |r| == |invs|
    ensures forall i | 0 <= i < |invs| :: r[i] == invs[i].entity
  {
    if invs == [] then [] else EntitiesOf(invs[..|invs| - 1]) + [invs[|invs| - 1].entity]
  }

  /** The entities whose script threw: the ones `console.error` reports. */
  function Faulted(invs: seq<Invocation>): seq<string> {
    if invs == [] then []
    else Faulted(invs[..|invs| - 1]) + if invs[|invs| - 1].outcome == Fault then [invs[|invs| - 1].entity] else []
  }

  lemma EntitiesOfAppend(a: seq<Invocation>, b: seq<Invocation>)
    ensures EntitiesOf(a + b) == EntitiesOf(a) + EntitiesOf(b)
  {
  }

  /** The scripts called are exactly those of the entities that run, in
      iteration order, each with the update's dt and the outcome the script
      gives; what a script does, fault included, does not decide which other
      scripts run. */
  lemma {:induction false} InvocationsFollowIds(w: map<string, Body>, ids: seq<string>, dt: real, run: ScriptRunner)
    ensures EntitiesOf(Invocations(w, ids, dt, run)) == RunIds(w, ids)
  {
    if ids != [] {
      var init := ids[..|ids| - 1];
      InvocationsFollowIds(w, init, dt, run);
      EntitiesOfAppend(Invocations(w, init, dt, run), Call(w, ids[|ids| - 1], dt, run));
    }
  }

  /** Each call is the script of an entity that runs, with the update's dt
      and the outcome that script gives. */
  lemma {:induction false} InvocationsAreCalls(w: map<string, Body>, ids: seq<string>, dt: real, run: ScriptRunner)
    ensures forall inv | inv in Invocations(w, ids, dt, run) ::
      && inv.entity in w && Runs(w[inv.entity])
      && inv.script == ScriptOf(w[inv.entity]) && inv.dt == dt
      && inv.outcome == run(inv.script, inv.entity, dt)
  {
    if ids != [] {
      InvocationsAreCalls(w, ids[..|ids| - 1], dt, run);
    }
  }

  lemma {:induction false} FaultedAppend(a: seq<Invocation>, b: seq<Invocation>)
    ensures Faulted(a + b) == Faulted(a) + Faulted(b)
  {
    if b != [] {
      FaultedAppend(a, b[..|b| - 1]);
      assert (a + b)[..|a + b| - 1] == a + b[..|b| - 1];
    } else {
      assert a + b == a;
    }
  }

  /** A fault isolates only itself: two oracles that disagree on every
      outcome still see the same scripts called in the same order. */
  lemma FaultsDoNotStopTheLoop(w: map<string, Body>, ids: seq<string>, dt: real, run1: ScriptRunner, run2: ScriptRunner)
    ensures EntitiesOf(Invocations(w, ids, dt, run1)) == EntitiesOf(Invocations(w, ids, dt, run2))
  {
    InvocationsFollowIds(w, ids, dt, run1);
    InvocationsFollowIds(w, ids, dt, run2);
  }

  /** The entities that run are exactly the active ones with a scripted Logic
      component, each once when the ids are distinct. */
  lemma {:induction false} RunIdsExactly(w: map<string, Body>, ids: seq<string>)
    ensures forall id :: id in RunIds(w, ids) <==> id in ids && id in w && Runs(w[id])
    ensures forall i | 0 <= i < |RunIds(w, ids)| :: RunIds(w, ids)[i] in ids
  {
    if ids != [] {
      var init := ids[..|ids| - 1];
      RunIdsExactly(w, init);
      assert ids == init + [ids[|ids| - 1]];
    }
  }

  /** Each entity that runs is called once per update: with distinct ids, no
      id is called twice. */
  lemma {:induction false} RunIdsAreDistinct(w: map<string, Body>, ids: seq<string>)
    requires forall i, j | 0 <= i < j < |ids| :: ids[i] != ids[j]
    ensures forall i, j | 0 <= i < j < |RunIds(w, ids)| :: RunIds(w, ids)[i] != RunIds(w, ids)[j]
  {
    if ids != [] {
      var init := ids[..|ids| - 1];
      var id := ids[|ids| - 1];
      RunIdsAreDistinct(w, init);
      RunIdsExactly(w, init);
      assert id !in init;
      var r := RunIds(w, init);
      var r1 := RunIds(w, ids);
      forall i, j | 0 <= i < j < |r1| ensures r1[i] != r1[j] {
        if j == |r| {
          assert r1[i] == r[i] && r[i] in r;
        } else {
          assert r1[i] == r[i] && r1[j] == r[j];
        }
      }
    }
  }

  /** Every fault is reported once, and only faults are reported. */
  lemma {:induction false} FaultedExactly(invs: seq<Invocation>)
    ensures forall id :: id in Faulted(invs) <==> exists i | 0 <= i < |invs| :: invs[i].entity == id && invs[i].outcome == Fault
  {
    if invs != [] {
      var init := invs[..|invs| - 1];
      FaultedExactly(init);
      forall id ensures id in Faulted(invs) <==> exists i | 0 <= i < |invs| :: invs[i].entity == id && invs[i].outcome == Fault {
        if id in Faulted(invs) && id !in Faulted(init) {
          assert invs[|invs| - 1].entity == id;
        }
        if exists i | 0 <= i < |invs| :: invs[i].entity == id && invs[i].outcome == Fault {
          var i :| 0 <= i < |invs| && invs[i].entity == id && invs[i].outcome == Fault;
          if i < |invs| - 1 {
            assert init[i] == invs[i];
          }
        }
      }
    }
  }

  class LogicSystem {
    const level: Level
    const run: ScriptRunner
    /** Every script call made so far. */
    var invocations: seq<Invocation>
    /** The entity ids `console.error` has reported, one per fault. */
    var errors: seq<string>

    constructor (level: Level, run: ScriptRunner)
      ensures this.level == level && this.run == run && invocations == [] && errors == []
    {
      this.level := level;
      this.run := run;
      invocations := [];
      errors := [];
    }

    /** The body of the `forEach` callback for the entity `e`, whose state
        and components are `b`. */
    method Visit(e: Entity, ghost b: Body, dt: real)
      requires e.Valid() && b == Body(e.state, e.components)
      modifies this`invocations, this`errors
      ensures invocations == old(invocations) + CallOn(e.id, b, dt, run)
      ensures errors == old(errors) + Faulted(CallOn(e.id, b, dt, run))
    {
      if e.state != Active {
        return;
      }
      var logic := e.GetComponent(LogicKind);
      if logic.Some? && logic.value.Logic? && logic.value.script.Some? {
        var h := logic.value.script.value;
        var outcome := run(h, e.id, dt);
        invocations := invocations + [Invocation(e.id, h, dt, outcome)];
        if outcome == Fault {
          errors := errors + [e.id];
        }
      }
    }

    /** The loop of `update` over `ids`, the level's ids, on a level whose
        world is `w`. */
    method VisitAll(ids: seq<string>, ghost w: map<string, Body>, dt: real)
      requires level.Valid() && ids == level.ids && w == level.World()
      modifies this`invocations, this`errors
      ensures invocations == old(invocations) + Invocations(w, ids, dt, run)
      ensures errors == old(errors) + Faulted(Invocations(w, ids, dt, run))
    {
      var i := 0;
      while i < |ids|
        invariant 0 <= i <= |ids|
        invariant invocations == old(invocations) + Invocations(w, ids[..i], dt, run)
        invariant errors == old(errors) + Faulted(Invocations(w, ids[..i], dt, run))
      {
        ghost var before := Invocations(w, ids[..i], dt, run);
        ghost var call := Call(w, ids[i], dt, run);
        InvocationsStep(w, ids, i, dt, run);
        FaultedAppend(before, call);
        AppendAssociative(old(invocations), before, call);
        AppendAssociative(old(errors), Faulted(before), Faulted(call));
        var e := level.entities[ids[i]];
        assert w[ids[i]] == Body(e.state, e.components);
        Visit(e, w[ids[i]], dt);
        i := i + 1;
      }
      assert ids[..i] == ids;
    }

    /** `update(dt)`: the calls of `Invocations` are appended to the log and
        the faulting ones to the error report, in order; the level is not
        touched, so no fault changes an entity's state or its script. */
    method Update(dt: real)
      requires level.Valid()
      modifies this`invocations, this`errors
      ensures invocations == old(invocations) + Invocations(level.World(), level.ids, dt, run)
      ensures errors == old(errors) + Faulted(Invocations(level.World(), level.ids, dt, run))
    {
      VisitAll(level.ids, level.World(), dt);
    }
  }
}
