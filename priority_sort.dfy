/** `Array.prototype.sort` with the comparator `(a, b) => pri(b) - pri(a)`,
    which every region resolver in the repository uses to visit regions from
    the highest priority down. The ECMAScript sort is stable, so the model is
    the stable insertion sort by descending priority; `pri` reads the priority
    off an element. */
module PrioritySort {

  /** Places x after every element of higher priority and before the rest. */
  function Insert<T>(x: T, s: seq<T>, pri: T -> real): seq<T> {
    if s == [] then [x]
    else if pri(x) >= pri(s[0]) then [x] + s
    else [s[0]] + Insert(x, s[1..], pri)
  }

  function Sort<T>(s: seq<T>, pri: T -> real): seq<T> {
    if s == [] then [] else Insert(s[0], Sort(s[1..], pri), pri)
  }

  predicate Descending<T>(s: seq<T>, pri: T -> real) {
    forall i, j | 0 <= i < j < |s| :: pri(s[i]) >= pri(s[j])
  }

  /** The elements of one priority, in order. */
  function WithPriority<T>(s: seq<T>, pri: T -> real, p: real): seq<T> {
    if s == [] then [] else (if pri(s[0]) == p then [s[0]] else []) + WithPriority(s[1..], pri, p)
  }

  /** No element has a priority above `b`. */
  predicate AtMost<T>(s: seq<T>, pri: T -> real, b: real) {
    forall i | 0 <= i < |s| :: pri(s[i]) <= b
  }

  lemma {:induction false} InsertPermutes<T>(x: T, s: seq<T>, pri: T -> real)
    ensures multiset(Insert(x, s, pri)) == multiset(s) + multiset{x}
  {
    if s == [] {
    } else if pri(x) >= pri(s[0]) {
      assert Insert(x, s, pri) == [x] + s;
    } else {
      InsertPermutes(x, s[1..], pri);
      assert s == [s[0]] + s[1..];
      assert Insert(x, s, pri) == [s[0]] + Insert(x, s[1..], pri);
    }
  }

  lemma {:induction false} InsertKeepsAtMost<T>(x: T, s: seq<T>, pri: T -> real, b: real)
    requires AtMost(s, pri, b) && pri(x) <= b
    ensures AtMost(Insert(x, s, pri), pri, b)
  {
    if s != [] && pri(x) < pri(s[0]) {
      InsertKeepsAtMost(x, s[1..], pri, b);
      var t := Insert(x, s[1..], pri);
      assert forall i | 1 <= i < |t| + 1 :: ([s[0]] + t)[i] == t[i - 1];
    }
  }

  /** A non-empty sequence is descending exactly when its head bounds its
      tail and its tail is descending. */
  lemma DescendingCons<T>(h: T, t: seq<T>, pri: T -> real)
    ensures Descending([h] + t, pri) <==> AtMost(t, pri, pri(h)) && Descending(t, pri)
  {
    var u := [h] + t;
    assert forall i | 0 <= i < |t| :: u[i + 1] == t[i];
    if AtMost(t, pri, pri(h)) && Descending(t, pri) {
      forall i, j | 0 <= i < j < |u| ensures pri(u[i]) >= pri(u[j]) {
        if i > 0 {
          assert u[i] == t[i - 1];
        }
      }
    }
    if Descending(u, pri) {
      forall i | 0 <= i < |t| ensures pri(t[i]) <= pri(h) {
        assert u[0] == h;
      }
      forall i, j | 0 <= i < j < |t| ensures pri(t[i]) >= pri(t[j]) {
        assert u[i + 1] == t[i];
      }
    }
  }

  lemma {:induction false} InsertKeepsDescending<T>(x: T, s: seq<T>, pri: T -> real)
    requires Descending(s, pri)
    ensures Descending(Insert(x, s, pri), pri)
  {
    if s == [] {
    } else if pri(x) >= pri(s[0]) {
      DescendingCons(s[0], s[1..], pri);
      assert s == [s[0]] + s[1..];
      forall i | 0 <= i < |s| ensures pri(s[i]) <= pri(x) {
      }
      DescendingCons(x, s, pri);
    } else {
      DescendingCons(s[0], s[1..], pri);
      assert s == [s[0]] + s[1..];
      InsertKeepsDescending(x, s[1..], pri);
      InsertKeepsAtMost(x, s[1..], pri, pri(s[0]));
      DescendingCons(s[0], Insert(x, s[1..], pri), pri);
    }
  }

  lemma {:induction false} InsertKeepsTies<T>(x: T, s: seq<T>, pri: T -> real, p: real)
    ensures WithPriority(Insert(x, s, pri), pri, p) == (if pri(x) == p then [x] else []) + WithPriority(s, pri, p)
  {
    var xs := if pri(x) == p then [x] else [];
    if s == [] {
    } else if pri(x) >= pri(s[0]) {
      var u := [x] + s;
      assert u[0] == x && u[1..] == s;
      assert WithPriority(u, pri, p) == xs + WithPriority(s, pri, p);
    } else {
      var t := Insert(x, s[1..], pri);
      InsertKeepsTies(x, s[1..], pri, p);
      var u := [s[0]] + t;
      assert u[0] == s[0] && u[1..] == t;
      var hs := if pri(s[0]) == p then [s[0]] else [];
      assert WithPriority(s, pri, p) == hs + WithPriority(s[1..], pri, p);
      assert WithPriority(u, pri, p) == hs + (xs + WithPriority(s[1..], pri, p));
      assert hs == [] || xs == [];
    }
  }

  /** The sort is descending, a permutation, and stable: among equal
      priorities the original order is kept. */
  lemma {:induction false} SortIsStable<T>(s: seq<T>, pri: T -> real, p: real)
    ensures Descending(Sort(s, pri), pri)
    ensures multiset(Sort(s, pri)) == multiset(s)
    ensures WithPriority(Sort(s, pri), pri, p) == WithPriority(s, pri, p)
  {
    if s != [] {
      SortIsStable(s[1..], pri, p);
      InsertKeepsDescending(s[0], Sort(s[1..], pri), pri);
      InsertPermutes(s[0], Sort(s[1..], pri), pri);
      InsertKeepsTies(s[0], Sort(s[1..], pri), pri, p);
      assert s == [s[0]] + s[1..];
    }
  }

  /** Two elements: the higher priority comes first, and on a tie the one
      that came first stays first. */
  lemma SortPair<T>(a: T, b: T, pri: T -> real)
    ensures Sort([a, b], pri) == if pri(a) >= pri(b) then [a, b] else [b, a]
  {
    assert [a, b][1..] == [b];
    assert [b][1..] == [];
    assert Sort([b], pri) == Insert(b, [], pri) == [b];
    assert Insert(a, [b], pri) == if pri(a) >= pri(b) then [a, b] else [b] + Insert(a, [], pri);
  }
}
