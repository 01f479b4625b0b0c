/** A stable comparison sort, the behaviour promised both by Rust's
    `slice::sort_by` and by JavaScript's `Array.prototype.sort`: the result is
    ordered by the comparator, is a permutation of the input, and keeps
    elements that compare equal in their input order.

    The comparator is given as `le(a, b)`, "a may stand before b", which for a
    three-way comparator `cmp` is `cmp(a, b) <= 0`. */
module StableSort {

  /** Any two elements compare, and the relation is transitive. */
  ghost predicate TotalPreorder<T(!new)>(le: (T, T) -> bool) {
    && (forall a, b :: le(a, b) || le(b, a))
    && (forall a, b, c :: le(a, b) && le(b, c) ==> le(a, c))
  }

  lemma Transitive<T(!new)>(le: (T, T) -> bool, a: T, b: T, c: T)
    requires TotalPreorder(le)
    requires le(a, b) && le(b, c)
    ensures le(a, c)
  {
  }

  predicate Sorted<T>(s: seq<T>, le: (T, T) -> bool) {
    forall i, j :: 0 <= i < j < |s| ==> le(s[i], s[j])
  }

  /** Inserts `x` in front of the first element it may precede, hence in
      front of every element that compares equal to it. */
  function Insert<T>(x: T, s: seq<T>, le: (T, T) -> bool): (r: seq<T>)
    ensures multiset(r) == multiset(s) + multiset{x}
    ensures |r| == |s| + 1
    decreases |s|
  {
    if s == [] || le(x, s[0]) then
      [x] + s
    else
      assert s == [s[0]] + s[1..];
      [s[0]] + Insert(x, s[1..], le)
  }

  lemma {:induction false} InsertSorted<T(!new)>(x: T, s: seq<T>, le: (T, T) -> bool)
    requires TotalPreorder(le)
    requires Sorted(s, le)
    ensures Sorted(Insert(x, s, le), le)
    decreases |s|
  {
    if s != [] && !le(x, s[0]) {
      var rest := Insert(x, s[1..], le);
      InsertSorted(x, s[1..], le);
      assert Insert(x, s, le) == [s[0]] + rest;
      forall k | 0 <= k < |rest| ensures le(s[0], rest[k]) {
        assert rest[k] in multiset(rest);
        if rest[k] != x {
          assert rest[k] in multiset(s[1..]);
          var m :| 0 <= m < |s[1..]| && s[1..][m] == rest[k];
          assert s[m + 1] == rest[k];
        }
      }
    }
  }

  /** Insertion sort; elements are inserted from the last one backwards, so
      equal elements end up in their input order. */
  function Sort<T(!new)>(s: seq<T>, le: (T, T) -> bool): (r: seq<T>)
    requires TotalPreorder(le)
    ensures Sorted(r, le)
    ensures multiset(r) == multiset(s)
    ensures |r| == |s|
    decreases |s|
  {
    if s == [] then []
    else
      assert s == [s[0]] + s[1..];
      InsertSorted(s[0], Sort(s[1..], le), le);
      Insert(s[0], Sort(s[1..], le), le)
  }

  /** The elements of `s` that compare equal to `z`, in their order in `s`. */
  function Equivalents<T>(s: seq<T>, z: T, le: (T, T) -> bool): seq<T>
    decreases |s|
  {
    if s == [] then []
    else (if le(s[0], z) && le(z, s[0]) then [s[0]] else []) + Equivalents(s[1..], z, le)
  }

  lemma {:induction false} InsertEquivalents<T(!new)>(x: T, s: seq<T>, z: T, le: (T, T) -> bool)
    requires TotalPreorder(le)
    ensures Equivalents(Insert(x, s, le), z, le)
         == (if le(x, z) && le(z, x) then [x] else []) + Equivalents(s, z, le)
    decreases |s|
  {
    var r := Insert(x, s, le);
    if s == [] || le(x, s[0]) {
      assert r == [x] + s;
      assert r[1..] == s;
    } else {
      var rest := Insert(x, s[1..], le);
      assert r == [s[0]] + rest;
      assert r[1..] == rest;
      InsertEquivalents(x, s[1..], z, le);
      var head := s[0];
      if le(x, z) && le(head, z) && le(z, head) {
        // x may precede z and z may precede the head, yet x did not go first
        Transitive(le, x, z, head);
        assert false;
      }
    }
  }

  /** Stability: for every equivalence class, the sort keeps the input order. */
  lemma {:induction false} SortStable<T(!new)>(s: seq<T>, z: T, le: (T, T) -> bool)
    requires TotalPreorder(le)
    ensures Equivalents(Sort(s, le), z, le) == Equivalents(s, z, le)
    decreases |s|
  {
    if s != [] {
      SortStable(s[1..], z, le);
      InsertEquivalents(s[0], Sort(s[1..], le), z, le);
    }
  }
  /** `f` applied to every element, in order. */
  function Apply<T, U>(s: seq<T>, f: T -> U): (r: seq<U>)
    ensures |r| == |s|
    ensures forall i :: 0 <= i < |s| ==> r[i] == f(s[i])
  {
    seq(|s|, i requires 0 <= i < |s| => f(s[i]))
  }

  lemma ApplyCons<T, U>(s: seq<T>, f: T -> U)
    requires s != []
    ensures Apply(s, f) == [f(s[0])] + Apply(s[1..], f)
  {
  }

  lemma {:induction false} ApplyInsert<T, U>(x: T, s: seq<T>, le: (T, T) -> bool, f: T -> U)
    ensures multiset(Apply(Insert(x, s, le), f)) == multiset(Apply(s, f)) + multiset{f(x)}
    decreases |s|
  {
    var r := Insert(x, s, le);
    ApplyCons(r, f);
    if s == [] || le(x, s[0]) {
      assert r[0] == x && r[1..] == s;
    } else {
      ApplyInsert(x, s[1..], le, f);
      ApplyCons(s, f);
      assert r[0] == s[0] && r[1..] == Insert(x, s[1..], le);
    }
  }

  /** Sorting permutes the elements, so it permutes any projection of them
      as well. */
  lemma {:induction false} ApplySort<T(!new), U>(s: seq<T>, le: (T, T) -> bool, f: T -> U)
    requires TotalPreorder(le)
    ensures multiset(Apply(Sort(s, le), f)) == multiset(Apply(s, f))
    decreases |s|
  {
    if s != [] {
      var rest := Sort(s[1..], le);
      assert Sort(s, le) == Insert(s[0], rest, le);
      ApplySort(s[1..], le, f);
      ApplyInsert(s[0], rest, le, f);
      ApplyCons(s, f);
    }
  }
}
