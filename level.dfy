/** A level of julesv1/src/core/Level.ts: the id -> entity map it owns (kept in
    insertion order, as a JavaScript `Map` iterates it) and its event bus. */
module Levels {
  import opened Wrappers
  import opened Constants
  import opened Components
  import opened Entities
  import opened Events
  import opened SeqUtil

  /** What the systems read and write of one entity. */
  datatype Body = Body(state: LifecycleState, components: map<Kind, Component>)

  /** The ids in order with one id taken out, as `Map.delete` leaves them. */
  function Without(ids: seq<string>, id: string): (r: seq<string>)
    ensures forall x :: x in r <==> x in ids && x != id
    ensures |r| <= |ids|
  {
    if ids == [] then []
    else
      assert ids == [ids[0]] + ids[1..];
      if ids[0] == id then Without(ids[1..], id)
    else [ids[0]] + Without(ids[1..], id)
  }

  /** Deleting from a sequence without repetitions keeps it without repetitions. */
  lemma {:induction false} WithoutKeepsDistinct(ids: seq<string>, id: string)
    requires Distinct(ids)
    ensures Distinct(Without(ids, id))
  {
    if ids != [] {
      WithoutKeepsDistinct(ids[1..], id);
      var rest := Without(ids[1..], id);
      if ids[0] != id {
        assert ids[0] !in ids[1..] by {
          forall k | 0 <= k < |ids[1..]| ensures ids[1..][k] != ids[0] {
            assert ids[1..][k] == ids[k + 1];
          }
        }
        var r := [ids[0]] + rest;
        forall i, j | 0 <= i < j < |r| ensures r[i] != r[j] {
          if i == 0 {
            assert r[j] == rest[j - 1] && rest[j - 1] in rest;
          } else {
            assert r[i] == rest[i - 1] && r[j] == rest[j - 1];
          }
        }
      }
    }
  }

  /** `destroy()` on each of the distinct entities `es`, in order. */
  method DestroyEach(es: seq<Entity>)
    requires forall j, k | 0 <= j < k < |es| :: es[j] != es[k]
    requires forall j | 0 <= j < |es| :: es[j].Valid()
    modifies set j | 0 <= j < |es| :: es[j]
    ensures forall j | 0 <= j < |es| :: DestroyedSince(es[j]) && es[j].Valid()
  {
    var i := 0;
    while i < |es|
      invariant 0 <= i <= |es|
      invariant forall j | 0 <= j < i :: DestroyedSince(es[j]) && es[j].Valid()
      invariant forall j | i <= j < |es| :: unchanged(es[j])
    {
      es[i].Destroy();
      i := i + 1;
    }
  }

  class Level {
    var entities: map<string, Entity>
    /** The keys of `entities` in insertion order. */
    var ids: seq<string>
    const bus: EventBus
    const specVersion: string

    /** Every entity is stored under its own id and is well formed, and `ids`
        lists each key exactly once. Since ids differ, so do the entity objects. */
    ghost predicate Valid()
      reads this, entities.Values
    {
      && Distinct(ids)
      && (forall i | 0 <= i < |ids| :: ids[i] in entities && entities[ids[i]].id == ids[i] && entities[ids[i]].Valid())
      && (forall id | id in entities :: id in ids)
    }

    /** The state and components of every entity, by id. */
    ghost function World(): map<string, Body>
      reads this, entities.Values
    {
      map id | id in entities :: Body(entities[id].state, entities[id].components)
    }

    /** The state and components of the entity stored under `id`. */
    ghost function BodyOf(id: string): Body
      requires id in entities
      reads this, entities[id]
    {
      Body(entities[id].state, entities[id].components)
    }

    /** The world is known once every entity's body is. */
    lemma WorldIs(w: map<string, Body>)
      requires entities.Keys == w.Keys
      requires forall id | id in entities :: BodyOf(id) == w[id]
      ensures World() == w
    {
    }

    constructor ()
      ensures Valid()
      ensures entities == map[] && ids == [] && specVersion == "1.1"
      ensures fresh(bus) && bus.listeners == map[] && bus.trace == []
    {
      entities := map[];
      ids := [];
      bus := new EventBus();
      specVersion := "1.1";
    }

    /** `createEntity(id)`: rejects an id already present; otherwise adds exactly
        one new entity, in state Created, at the end of the iteration order. */
    method CreateEntity(id: string) returns (r: Result<Entity, LifecycleError>)
      requires Valid()
      modifies this`entities, this`ids
      ensures Valid()
      ensures id in old(entities) ==>
        r == Failure(DuplicateEntityId(id)) && entities == old(entities) && ids == old(ids)
      ensures id !in old(entities) ==>
        && r.Success? && fresh(r.value)
        && r.value.id == id && r.value.state == Created && r.value.components == map[]
        && entities == old(entities)[id := r.value] && ids == old(ids) + [id]
    {
      if id in entities {
        return Failure(DuplicateEntityId(id));
      }
      var e := new Entity(id);
      entities := entities[id := e];
      ids := ids + [id];
      r := Success(e);
    }

    /** `removeEntity(id)`: destroys that entity and deletes only its key; an
        absent id changes nothing. */
    method RemoveEntity(id: string)
      requires Valid()
      modifies this`entities, this`ids, if id in entities then {entities[id]} else {}
      ensures Valid()
      ensures id !in old(entities) ==> entities == old(entities) && ids == old(ids)
      ensures id in old(entities) ==>
        && DestroyedSince(old(entities)[id])
        && entities == old(entities) - {id} && ids == Without(old(ids), id)
    {
      if id in entities {
        var e := entities[id];
        forall k | k in entities && k != id ensures entities[k] != e {
          assert entities[k].id == k;
        }
        e.Destroy();
        entities := entities - {id};
        WithoutKeepsDistinct(ids, id);
        var rest := Without(ids, id);
        forall i | 0 <= i < |rest| ensures rest[i] in entities {
          assert rest[i] in rest;
        }
        ids := rest;
      }
    }

    /** `dispose()`: destroys every entity, in iteration order, and empties the map. */
    method Dispose()
      requires Valid()
      modifies this`entities, this`ids, entities.Values
      ensures Valid()
      ensures entities == map[] && ids == []
      ensures forall id | id in old(entities) :: DestroyedSince(old(entities)[id]) && old(entities)[id].Valid()
    {
      var es := seq(|ids|, j requires 0 <= j < |ids| && ids[j] in entities reads this => entities[ids[j]]);
      forall j, k | 0 <= j < k < |es| ensures es[j] != es[k] {
        assert es[j].id == ids[j] != ids[k] == es[k].id;
      }
      assert forall x | x in entities.Values :: x in es by {
        forall x | x in entities.Values ensures x in es {
          var id :| id in entities && entities[id] == x;
          var j :| 0 <= j < |ids| && ids[j] == id;
          assert es[j] == x;
        }
      }
      DestroyEach(es);
      forall id | id in entities ensures DestroyedSince(entities[id]) && entities[id].Valid() {
        var j :| 0 <= j < |ids| && ids[j] == id;
        assert es[j] == entities[id];
      }
      Clear();
    }

    /** The map emptied. */
    method Clear()
      modifies this`entities, this`ids
      ensures Valid() && entities == map[] && ids == []
    {
      entities := map[];
      ids := [];
    }
  }
}
