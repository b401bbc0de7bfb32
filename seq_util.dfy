/** Small facts about sequences used across the model. */
module SeqUtil {

  predicate Distinct<T(==)>(s: seq<T>) {
    forall i, j | 0 <= i < j < |s| :: s[i] != s[j]
  }

  lemma DistinctAppend<T>(s: seq<T>, x: T)
    requires Distinct(s) && x !in s
    ensures Distinct(s + [x])
  {
    var r := s + [x];
    forall i, j | 0 <= i < j < |r| ensures r[i] != r[j] {
      if j == |s| {
        assert r[i] == s[i] && s[i] in s;
      } else {
        assert r[i] == s[i] && r[j] == s[j];
      }
    }
  }

  lemma DistinctPrefix<T>(s: seq<T>, n: nat)
    requires Distinct(s) && n <= |s|
    ensures Distinct(s[..n])
    ensures forall k | n <= k < |s| :: s[k] !in s[..n]
  {
  }

  /** A sequence without repetitions has as many distinct elements as positions. */
  lemma {:induction false} DistinctCardinality<T>(s: seq<T>)
    requires Distinct(s)
    ensures |set x | x in s| == |s|
  {
    if s != [] {
      var init := s[..|s| - 1];
      DistinctPrefix(s, |s| - 1);
      DistinctCardinality(init);
      assert s == init + [s[|s| - 1]];
      assert (set x | x in s) == (set x | x in init) + {s[|s| - 1]};
    }
  }

  /** Concatenation regroups freely; stated once so that long traces are
      compared by rewriting rather than element by element. */
  lemma AppendAssociative<T>(a: seq<T>, b: seq<T>, c: seq<T>)
    ensures (a + b) + c == a + (b + c)
  {
  }

  /** `r` is `m` with the keys `ids[..i]` given their values in `target`,
      the state of a loop that updates a map key by key in `ids` order. */
  ghost predicate UpdatedUpTo<K, V>(r: map<K, V>, m: map<K, V>, target: map<K, V>, ids: seq<K>, i: nat) {
    && i <= |ids| && r.Keys == m.Keys && target.Keys == m.Keys
    && forall k | k in m :: r[k] == if k in ids[..i] then target[k] else m[k]
  }

  /** Updating the next key, one not seen before, extends the prefix. */
  lemma UpdatedNext<K, V>(r: map<K, V>, m: map<K, V>, target: map<K, V>, ids: seq<K>, i: nat)
    requires UpdatedUpTo(r, m, target, ids, i) && i < |ids| && ids[i] in m && ids[i] !in ids[..i]
    ensures UpdatedUpTo(r[ids[i] := target[ids[i]]], m, target, ids, i + 1)
  {
    var r1 := r[ids[i] := target[ids[i]]];
    forall k | k in m
      ensures r1[k] == if k in ids[..i + 1] then target[k] else m[k]
    {
      assert k in ids[..i + 1] <==> k in ids[..i] || k == ids[i];
    }
  }

  /** Once every key of the map has been visited, the map is the target. */
  lemma UpdatedAll<K, V>(r: map<K, V>, m: map<K, V>, target: map<K, V>, ids: seq<K>)
    requires UpdatedUpTo(r, m, target, ids, |ids|) && forall k | k in m :: k in ids
    ensures r == target
  {
    assert ids[..|ids|] == ids;
  }

  /** The keys of a JavaScript Map in insertion order, after `set(k, v)`:
      a new key goes last, a known key keeps its place. */
  function SetOrder<K, V>(ids: seq<K>, m: map<K, V>, k: K): seq<K> {
    if k in m then ids else ids + [k]
  }

  /** `set` keeps the order a list of the Map's keys, each once. */
  lemma SetOrderKeepsKeys<K, V>(ids: seq<K>, m: map<K, V>, k: K, v: V)
    requires Distinct(ids) && forall x :: x in m <==> x in ids
    ensures Distinct(SetOrder(ids, m, k)) && forall x :: x in m[k := v] <==> x in SetOrder(ids, m, k)
  {
    if k !in m {
      DistinctAppend(ids, k);
    }
  }
}
