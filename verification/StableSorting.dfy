/** The contract of a stable sort: what sort.SliceStable promises determines its result, whatever its algorithm. */
module StableSorting {

  /** A strict weak order: what a sort comparison must be. */
  ghost predicate WeakOrder<T(!new)>(less: (T, T) -> bool) {
    && (forall x, y :: less(x, y) ==> !less(y, x))
    && (forall x, y, z :: less(x, y) && less(y, z) ==> less(x, z))
    && (forall x, y, z :: Ties(less, x, y) && Ties(less, y, z) ==> Ties(less, x, z))
  }

  predicate Ties<T>(less: (T, T) -> bool, x: T, y: T) { !less(x, y) && !less(y, x) }

  ghost predicate Sorted<T>(less: (T, T) -> bool, s: seq<T>) {
    forall i, j :: 0 <= i < j < |s| ==> !less(s[j], s[i])
  }

  /** The elements of s tied with x, in their order. */
  function Class<T>(less: (T, T) -> bool, x: T, s: seq<T>): seq<T> {
    if s == [] then [] else (if Ties(less, x, s[0]) then [s[0]] else []) + Class(less, x, s[1..])
  }

  /** Sorted, and tied elements keep their order. */
  ghost predicate IsStableSort<T(!new)>(less: (T, T) -> bool, s: seq<T>, r: seq<T>) {
    Sorted(less, r) && forall x :: Class(less, x, r) == Class(less, x, s)
  }

  function Insert<T>(less: (T, T) -> bool, x: T, s: seq<T>): seq<T> {
    if s == [] || !less(s[0], x) then [x] + s else [s[0]] + Insert(less, x, s[1..])
  }

  function StableSort<T>(less: (T, T) -> bool, s: seq<T>): (r: seq<T>)
    ensures |r| == |s|
  {
    if s == [] then [] else
      var r := StableSort(less, s[1..]);
      InsertLength(less, s[0], r);
      Insert(less, s[0], r)
  }

  lemma {:induction false} InsertLength<T>(less: (T, T) -> bool, x: T, s: seq<T>)
    ensures |Insert(less, x, s)| == |s| + 1
  {
    if s != [] && less(s[0], x) { InsertLength(less, x, s[1..]); }
  }

  lemma {:induction false} InsertPermutes<T>(less: (T, T) -> bool, x: T, s: seq<T>)
    ensures multiset(Insert(less, x, s)) == multiset(s) + multiset{x}
  {
    if s != [] && less(s[0], x) {
      InsertPermutes(less, x, s[1..]);
      assert s == [s[0]] + s[1..];
    }
  }

  lemma {:induction false} SortPermutes<T>(less: (T, T) -> bool, s: seq<T>)
    ensures multiset(StableSort(less, s)) == multiset(s)
  {
    if s != [] {
      SortPermutes(less, s[1..]);
      InsertPermutes(less, s[0], StableSort(less, s[1..]));
      assert s == [s[0]] + s[1..];
    }
  }

  lemma {:induction false} InsertKeepsSorted<T(!new)>(less: (T, T) -> bool, x: T, s: seq<T>)
    requires WeakOrder(less) && Sorted(less, s)
    ensures Sorted(less, Insert(less, x, s))
  {
    if s != [] && less(s[0], x) {
      var r := Insert(less, x, s[1..]);
      InsertKeepsSorted(less, x, s[1..]);
      InsertPermutes(less, x, s[1..]);
      forall k | 0 <= k < |r| ensures !less(r[k], s[0]) {
        assert r[k] in multiset(r);
        assert r[k] == x || r[k] in s[1..];
      }
    } else if s != [] {
      forall k | 0 <= k < |s| ensures !less(s[k], x) {
        if k > 0 { NotLessTransitive(less, s[k], s[0], x); }
      }
    }
  }

  lemma NotLessTransitive<T(!new)>(less: (T, T) -> bool, x: T, y: T, z: T)
    requires WeakOrder(less) && !less(x, y) && !less(y, z)
    ensures !less(x, z)
  {
    assert Ties(less, x, y) && Ties(less, y, z) ==> Ties(less, x, z);
    assert less(x, z) && less(y, x) ==> less(y, z);
    assert less(x, z) && less(z, y) ==> less(x, y);
  }

  lemma {:induction false} InsertClass<T(!new)>(less: (T, T) -> bool, x: T, s: seq<T>, y: T)
    requires WeakOrder(less)
    ensures Class(less, y, Insert(less, x, s)) == Class(less, y, [x] + s)
  {
    if s != [] && less(s[0], x) {
      InsertClass(less, x, s[1..], y);
      assert ([s[0]] + Insert(less, x, s[1..]))[1..] == Insert(less, x, s[1..]);
      assert ([x] + s[1..])[1..] == s[1..] && ([x] + s)[1..] == s;
      assert Ties(less, y, s[0]) && Ties(less, y, x) ==> Ties(less, s[0], x) by {
        assert Ties(less, s[0], y) == Ties(less, y, s[0]);
      }
    }
  }

  lemma {:induction false} SortIsStableSort<T(!new)>(less: (T, T) -> bool, s: seq<T>)
    requires WeakOrder(less)
    ensures IsStableSort(less, s, StableSort(less, s))
  {
    if s != [] {
      var r := StableSort(less, s[1..]);
      SortIsStableSort(less, s[1..]);
      InsertKeepsSorted(less, s[0], r);
      forall y ensures Class(less, y, Insert(less, s[0], r)) == Class(less, y, s) {
        InsertClass(less, s[0], r, y);
        assert ([s[0]] + r)[1..] == r;
      }
    }
  }

  lemma {:induction false} ClassMembers<T(!new)>(less: (T, T) -> bool, x: T, s: seq<T>)
    ensures Class(less, x, s) != [] <==> exists i :: 0 <= i < |s| && Ties(less, x, s[i])
    ensures forall i | 0 <= i < |Class(less, x, s)| :: Ties(less, x, Class(less, x, s)[i]) && Class(less, x, s)[i] in s
  {
    if s != [] {
      ClassMembers(less, x, s[1..]);
      if Ties(less, x, s[0]) {
        assert Class(less, x, s)[0] == s[0];
      } else if i :| 0 <= i < |s| && Ties(less, x, s[i]) {
        assert s[1..][i - 1] == s[i];
      }
    }
  }

  lemma HeadInClass<T(!new)>(less: (T, T) -> bool, s: seq<T>)
    requires WeakOrder(less) && s != []
    ensures Class(less, s[0], s) != [] && Class(less, s[0], s)[0] == s[0]
  {
    assert Ties(less, s[0], s[0]);
  }

  lemma HeadFirst<T(!new)>(less: (T, T) -> bool, a: seq<T>, b: seq<T>)
    requires WeakOrder(less) && a != [] && b != [] && Sorted(less, b)
    requires Class(less, a[0], a) == Class(less, a[0], b)
    ensures !less(a[0], b[0])
  {
    ClassMembers(less, a[0], a);
    ClassMembers(less, a[0], b);
    assert Ties(less, a[0], a[0]);
    var i :| 0 <= i < |b| && Ties(less, a[0], b[i]);
    NotLessTransitive(less, a[0], b[i], b[0]);
  }

  /** Any result meeting the contract is the one computed here. */
  lemma {:induction false} StableSortUnique<T(!new)>(less: (T, T) -> bool, s: seq<T>, a: seq<T>, b: seq<T>)
    requires WeakOrder(less) && IsStableSort(less, s, a) && IsStableSort(less, s, b)
    ensures a == b
    decreases |a|
  {
    if a == [] {
      if b != [] { HeadInClass(less, b); }
    } else {
      ClassMembers(less, a[0], a);
      ClassMembers(less, a[0], b);
      HeadInClass(less, a);
      HeadFirst(less, a, b);
      HeadFirst(less, b, a);
      assert Ties(less, a[0], b[0]) && Class(less, a[0], b)[0] == b[0];
      forall x ensures Class(less, x, a[1..]) == Class(less, x, b[1..]) {
        assert Class(less, x, a) == Class(less, x, b);
        TailClass(less, x, a);
        TailClass(less, x, b);
      }
      StableSortUnique(less, a[1..], a[1..], b[1..]);
    }
  }

  lemma TailClass<T>(less: (T, T) -> bool, x: T, s: seq<T>)
    requires s != []
    ensures Class(less, x, s[1..]) == if Ties(less, x, s[0]) then Class(less, x, s)[1..] else Class(less, x, s)
  {
  }
}
