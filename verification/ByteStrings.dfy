/** Byte-wise string order, as Go's sort.Strings and string comparison use it, and
    the few facts about sorted lists of identifiers that the other modules need. */
module ByteStrings {

  predicate Le(a: string, b: string) {
    a == "" || (b != "" && (a[0] < b[0] || (a[0] == b[0] && Le(a[1..], b[1..]))))
  }

  lemma {:induction false} LeTotal(a: string, b: string)
    ensures Le(a, b) || Le(b, a)
  {
    if a != "" && b != "" && a[0] == b[0] {
      LeTotal(a[1..], b[1..]);
    }
  }

  lemma {:induction false} LeAntisymmetric(a: string, b: string)
    requires Le(a, b) && Le(b, a)
    ensures a == b
  {
    if a != "" && b != "" {
      LeAntisymmetric(a[1..], b[1..]);
      assert a == [a[0]] + a[1..] && b == [b[0]] + b[1..];
    }
  }

  lemma {:induction false} LeTransitive(a: string, b: string, c: string)
    requires Le(a, b) && Le(b, c)
    ensures Le(a, c)
  {
    if a != "" && a[0] == b[0] && b[0] == c[0] {
      LeTransitive(a[1..], b[1..], c[1..]);
    }
  }

  ghost function Elems<T>(s: seq<T>): set<T> { set x | x in s }

  ghost predicate NoDup<T>(s: seq<T>) {
    forall i, j :: 0 <= i < j < |s| ==> s[i] != s[j]
  }

  lemma {:induction false} NoDupSize<T>(s: seq<T>)
    requires NoDup(s)
    ensures |Elems(s)| == |s|
  {
    if s != [] {
      NoDupSize(s[1..]);
      assert Elems(s) == {s[0]} + Elems(s[1..]);
      assert s[0] !in s[1..];
    }
  }

  lemma SubsetSize<T>(a: set<T>, b: set<T>)
    requires a <= b
    ensures |a| <= |b|
    ensures |a| == |b| ==> a == b
  {
    assert b == a + (b - a);
    assert |b| == |a| + |b - a|;
  }

  ghost predicate IsLeast(m: string, s: set<string>) {
    m in s && forall x | x in s :: Le(m, x)
  }

  lemma {:induction false} LeastExists(s: set<string>)
    requires s != {}
    ensures exists m :: IsLeast(m, s)
    decreases |s|
  {
    var x :| x in s;
    LeTotal(x, x);
    var rest := s - {x};
    if rest == {} {
      assert s == {x};
      assert IsLeast(x, s);
    } else {
      LeastExists(rest);
      var m :| IsLeast(m, rest);
      LeTotal(x, m);
      if Le(x, m) {
        forall y | y in s ensures Le(x, y) {
          if y != x { LeTransitive(x, m, y); }
        }
        assert IsLeast(x, s);
      } else {
        assert IsLeast(m, s);
      }
    }
  }

  ghost function Least(s: set<string>): (m: string)
    requires s != {}
    ensures IsLeast(m, s)
  {
    LeastExists(s);
    var m :| IsLeast(m, s);
    m
  }

  lemma LeastUnique(m: string, s: set<string>)
    requires IsLeast(m, s)
    ensures m == Least(s)
  {
    LeAntisymmetric(m, Least(s));
  }

  ghost predicate Sorted(s: seq<string>) {
    forall i, j :: 0 <= i < j < |s| ==> Le(s[i], s[j])
  }

  function Insert(x: string, s: seq<string>): seq<string> {
    if s == [] then [x]
    else if Le(x, s[0]) then [x] + s
    else [s[0]] + Insert(x, s[1..])
  }

  function InsertionSort(s: seq<string>): seq<string> {
    if s == [] then [] else Insert(s[0], InsertionSort(s[1..]))
  }

  lemma {:induction false} InsertPermutes(x: string, s: seq<string>)
    ensures multiset(Insert(x, s)) == multiset(s) + multiset{x}
  {
    if s != [] {
      assert s == [s[0]] + s[1..];
      InsertPermutes(x, s[1..]);
    }
  }

  lemma {:induction false} InsertKeepsSorted(x: string, s: seq<string>)
    requires Sorted(s)
    ensures Sorted(Insert(x, s))
  {
    if s != [] {
      LeTotal(x, s[0]);
      if Le(x, s[0]) {
        forall j | 0 <= j < |s| ensures Le(x, s[j]) {
          if j > 0 { LeTransitive(x, s[0], s[j]); }
        }
      } else {
        var t := Insert(x, s[1..]);
        InsertKeepsSorted(x, s[1..]);
        InsertPermutes(x, s[1..]);
        forall j | 0 <= j < |t| ensures Le(s[0], t[j]) {
          assert t[j] in multiset(t);
          assert t[j] == x || t[j] in s[1..];
        }
      }
    }
  }

  lemma {:induction false} SortFacts(s: seq<string>)
    ensures Sorted(InsertionSort(s)) && multiset(InsertionSort(s)) == multiset(s)
  {
    if s != [] {
      assert s == [s[0]] + s[1..];
      SortFacts(s[1..]);
      InsertPermutes(s[0], InsertionSort(s[1..]));
      InsertKeepsSorted(s[0], InsertionSort(s[1..]));
    }
  }

  lemma MultisetFacts<T>(s: seq<T>, t: seq<T>)
    requires multiset(s) == multiset(t)
    ensures Elems(s) == Elems(t) && |s| == |t|
    ensures NoDup(s) ==> NoDup(t)
  {
    forall x ensures x in s <==> x in t {
      assert x in s <==> x in multiset(s);
      assert x in t <==> x in multiset(t);
    }
    assert Elems(s) == Elems(t);
    assert |multiset(s)| == |s| && |multiset(t)| == |t|;
    if NoDup(s) {
      NoDupSize(s);
      assert Elems(s) == Elems(t);
      NoDupFromSize(t);
    }
  }

  lemma {:induction false} ElemsSizeAtMost<T>(s: seq<T>)
    ensures |Elems(s)| <= |s|
  {
    if s != [] {
      ElemsSizeAtMost(s[1..]);
      assert Elems(s) == {s[0]} + Elems(s[1..]);
    }
  }

  lemma {:induction false} NoDupFromSize<T>(s: seq<T>)
    requires |Elems(s)| == |s|
    ensures NoDup(s)
  {
    if s != [] {
      assert Elems(s) == {s[0]} + Elems(s[1..]);
      ElemsSizeAtMost(s[1..]);
      NoDupFromSize(s[1..]);
      assert s[0] !in Elems(s[1..]);
      forall i, j | 0 <= i < j < |s| ensures s[i] != s[j] {
        assert s[j] == s[1..][j - 1];
        if i > 0 { assert s[i] == s[1..][i - 1]; }
      }
    }
  }

  /** The elements of a set in ascending order. */
  ghost function Ascending(s: set<string>): (r: seq<string>)
    ensures forall x :: x in r <==> x in s
    decreases |s|
  {
    if s == {} then [] else [Least(s)] + Ascending(s - {Least(s)})
  }

  lemma {:induction false} AscendingFacts(s: set<string>)
    ensures Elems(Ascending(s)) == s && NoDup(Ascending(s)) && Sorted(Ascending(s))
    decreases |s|
  {
    if s != {} {
      var m := Least(s);
      var t := Ascending(s - {m});
      AscendingFacts(s - {m});
      forall i, j | 0 <= i < j < |t| + 1
        ensures ([m] + t)[i] != ([m] + t)[j] && Le(([m] + t)[i], ([m] + t)[j])
      {
        assert t[j - 1] in s - {m};
      }
    }
  }

  lemma {:induction false} SortedUnique(s: seq<string>)
    requires Sorted(s) && NoDup(s)
    ensures s == Ascending(Elems(s))
  {
    if s != [] {
      LeTotal(s[0], s[0]);
      assert IsLeast(s[0], Elems(s));
      LeastUnique(s[0], Elems(s));
      assert Elems(s) - {s[0]} == Elems(s[1..]) by {
        assert s == [s[0]] + s[1..];
        assert s[0] !in s[1..];
      }
      SortedUnique(s[1..]);
    }
  }

  lemma AscendingHead(s: set<string>)
    requires s != {}
    ensures Ascending(s) != [] && Ascending(s)[0] == Least(s)
    ensures NoDup(Ascending(s)[1..]) && Elems(Ascending(s)[1..]) == s - {Least(s)}
  {
    AscendingFacts(s - {Least(s)});
  }

  /** sort.Strings. A duplicate-free list comes back as the ascending list of its elements. */
  method Sort(s: seq<string>) returns (r: seq<string>)
    ensures Sorted(r) && multiset(r) == multiset(s)
    ensures NoDup(s) ==> r == Ascending(Elems(s))
  {
    r := InsertionSort(s);
    SortFacts(s);
    MultisetFacts(s, r);
    if NoDup(s) {
      SortedUnique(r);
    }
  }
}
