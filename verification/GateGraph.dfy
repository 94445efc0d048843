/** Directed graphs over gate identifiers: topological orders, cycles, and the order
    that always takes the smallest ready identifier. An edge (a, b) means "a before b". */
module GateGraph {
  import opened ByteStrings

  type Edges = set<(string, string)>

  ghost predicate Within(arcs: Edges, nodes: set<string>) {
    forall e | e in arcs :: e.0 in nodes && e.1 in nodes
  }

  /** A topological order lists every node once and puts the source of an edge before its target. */
  ghost predicate IsTopological(nodes: set<string>, arcs: Edges, t: seq<string>) {
    && NoDup(t)
    && Elems(t) == nodes
    && forall i, j :: 0 <= i < |t| && 0 <= j < |t| && (t[i], t[j]) in arcs ==> i < j
  }

  ghost predicate IsWalk(arcs: Edges, w: seq<string>) {
    |w| >= 1 && forall i :: 0 <= i < |w| - 1 ==> (w[i], w[i + 1]) in arcs
  }

  ghost predicate Walk(arcs: Edges, w: seq<string>, a: string, b: string) {
    IsWalk(arcs, w) && w[0] == a && w[|w| - 1] == b
  }

  ghost predicate IsCycle(arcs: Edges, c: seq<string>) {
    |c| >= 2 && Walk(arcs, c, c[0], c[0])
  }

  ghost predicate Acyclic(arcs: Edges) {
    forall c :: !IsCycle(arcs, c)
  }

  /** x lies on a cycle or downstream of one. */
  ghost predicate BehindCycle(arcs: Edges, x: string) {
    exists c, w :: IsCycle(arcs, c) && Walk(arcs, w, c[0], x)
  }

  /** Lexicographic comparison of two orders, position by position. */
  ghost predicate LexLe(s: seq<string>, t: seq<string>) {
    s == [] || (t != [] && (if s[0] == t[0] then LexLe(s[1..], t[1..]) else Le(s[0], t[0])))
  }

  // --- the greedy order ---

  ghost function Preds(arcs: Edges, x: string, from: set<string>): set<string> {
    set p | p in from && (p, x) in arcs
  }

  /** The unplaced nodes whose predecessors are all placed. */
  ghost function Ready(nodes: set<string>, arcs: Edges, placed: set<string>): set<string> {
    set x | x in nodes && x !in placed && Preds(arcs, x, nodes - placed) == {}
  }

  /** Repeatedly take the smallest ready node. */
  ghost function Greedy(nodes: set<string>, arcs: Edges, placed: set<string>): seq<string>
    decreases nodes - placed
  {
    var ready := Ready(nodes, arcs, placed);
    if ready == {} then [] else [Least(ready)] + Greedy(nodes, arcs, placed + {Least(ready)})
  }

  /** Every element's predecessors are in `placed` or occur earlier in `t`. */
  ghost predicate Supported(nodes: set<string>, arcs: Edges, placed: set<string>, t: seq<string>) {
    forall j :: 0 <= j < |t| ==> Preds(arcs, t[j], nodes) <= placed + Elems(t[..j])
  }

  lemma {:induction false} GreedyFacts(nodes: set<string>, arcs: Edges, placed: set<string>)
    ensures var g := Greedy(nodes, arcs, placed);
            && NoDup(g) && Elems(g) <= nodes - placed
            && Supported(nodes, arcs, placed, g)
            && Ready(nodes, arcs, placed + Elems(g)) == {}
    decreases nodes - placed
  {
    var ready := Ready(nodes, arcs, placed);
    var g := Greedy(nodes, arcs, placed);
    if ready == {} {
      assert placed + Elems(g) == placed;
    } else {
      var m := Least(ready);
      var rest := Greedy(nodes, arcs, placed + {m});
      GreedyFacts(nodes, arcs, placed + {m});
      assert g == [m] + rest;
      PrependLeast(m, rest, nodes - placed);
      assert placed + Elems(g) == placed + {m} + Elems(rest);
      PrependSupported(nodes, arcs, placed, m, rest);
    }
  }

  lemma PrependLeast(m: string, rest: seq<string>, room: set<string>)
    requires NoDup(rest) && m in room && Elems(rest) <= room - {m}
    ensures NoDup([m] + rest) && Elems([m] + rest) == {m} + Elems(rest) && Elems([m] + rest) <= room
  {
    forall i | 0 <= i < |rest| ensures rest[i] != m { assert rest[i] in Elems(rest); }
  }

  lemma PrependSupported(nodes: set<string>, arcs: Edges, placed: set<string>, m: string, rest: seq<string>)
    requires m in Ready(nodes, arcs, placed) && Supported(nodes, arcs, placed + {m}, rest)
    ensures Supported(nodes, arcs, placed, [m] + rest)
  {
    var g := [m] + rest;
    forall j | 0 <= j < |g| ensures Preds(arcs, g[j], nodes) <= placed + Elems(g[..j]) {
      if j == 0 {
        forall p | p in Preds(arcs, m, nodes) ensures p in placed {
          assert p in placed || p in Preds(arcs, m, nodes - placed);
        }
      } else {
        assert g[j] == rest[j - 1];
        assert g[..j] == [m] + rest[..j - 1];
        assert Elems(g[..j]) == {m} + Elems(rest[..j - 1]);
      }
    }
  }

  lemma GreedyTopological(nodes: set<string>, arcs: Edges)
    requires Within(arcs, nodes)
    requires |Greedy(nodes, arcs, {})| == |nodes|
    ensures IsTopological(nodes, arcs, Greedy(nodes, arcs, {}))
  {
    var g := Greedy(nodes, arcs, {});
    GreedyFacts(nodes, arcs, {});
    NoDupSize(g);
    SubsetSize(Elems(g), nodes);
    forall i, j | 0 <= i < |g| && 0 <= j < |g| && (g[i], g[j]) in arcs ensures i < j {
      assert g[i] in Preds(arcs, g[j], nodes);
      assert g[i] in g[..j];
    }
  }

  // --- cycles ---

  /** Walking inside a supported list only moves forward. */
  lemma {:induction false} WalkClimbs(nodes: set<string>, arcs: Edges, t: seq<string>, w: seq<string>, b: nat)
    requires Within(arcs, nodes) && Supported(nodes, arcs, {}, t)
    requires IsWalk(arcs, w) && b < |t| && w[|w| - 1] == t[b]
    ensures exists a :: 0 <= a <= b && t[a] == w[0] && (|w| >= 2 ==> a < b)
    decreases |w|
  {
    if |w| >= 2 {
      var n := |w| - 1;
      var p := w[n - 1];
      assert (w[n - 1], w[n]) in arcs;
      assert p in Preds(arcs, t[b], nodes);
      assert p in t[..b];
      var b' :| 0 <= b' < b && t[b'] == p;
      WalkClimbs(nodes, arcs, t, w[..n], b');
    } else {
      assert t[b] == w[0];
    }
  }

  lemma SupportedNotBehindCycle(nodes: set<string>, arcs: Edges, t: seq<string>, x: string)
    requires Within(arcs, nodes) && Supported(nodes, arcs, {}, t) && NoDup(t)
    requires x in t
    ensures !BehindCycle(arcs, x)
  {
    if BehindCycle(arcs, x) {
      var c, w :| IsCycle(arcs, c) && Walk(arcs, w, c[0], x);
      var b :| 0 <= b < |t| && t[b] == x;
      WalkClimbs(nodes, arcs, t, w, b);
      var k :| 0 <= k <= b && t[k] == c[0];
      WalkClimbs(nodes, arcs, t, c, k);
      assert false;
    }
  }

  lemma WalkParts(arcs: Edges, w: seq<string>, k: nat)
    requires IsWalk(arcs, w) && k < |w|
    ensures IsWalk(arcs, w[..k + 1]) && IsWalk(arcs, w[k..])
  {
    var tail := w[k..];
    forall i | 0 <= i < |tail| - 1 ensures (tail[i], tail[i + 1]) in arcs {
      assert tail[i] == w[k + i] && tail[i + 1] == w[k + i + 1];
    }
  }

  lemma WalkPrepend(arcs: Edges, p: string, w: seq<string>)
    requires IsWalk(arcs, w) && (p, w[0]) in arcs
    ensures IsWalk(arcs, [p] + w)
  {
    var v := [p] + w;
    forall i | 0 <= i < |v| - 1 ensures (v[i], v[i + 1]) in arcs {
      if i > 0 { assert v[i] == w[i - 1] && v[i + 1] == w[i]; }
    }
  }

  lemma PrependFresh(pool: set<string>, p: string, w: seq<string>)
    requires NoDup(w) && Elems(w) <= pool && p in pool && p !in w
    ensures NoDup([p] + w) && Elems([p] + w) <= pool && |w| < |pool|
  {
    var v := [p] + w;
    assert Elems(v) == {p} + Elems(w);
    forall i, j | 0 <= i < j < |v| ensures v[i] != v[j] {
      assert v[j] == w[j - 1];
    }
    NoDupSize(v);
    SubsetSize(Elems(v), pool);
  }

  /** Going backwards among nodes that all have a predecessor among themselves runs into a cycle. */
  lemma {:induction false} BackwardsToCycle(pool: set<string>, arcs: Edges, w: seq<string>)
    requires forall x | x in pool :: Preds(arcs, x, pool) != {}
    requires IsWalk(arcs, w) && NoDup(w) && Elems(w) <= pool
    ensures BehindCycle(arcs, w[|w| - 1])
    decreases |pool| - |w|
  {
    assert w[0] in Elems(w);
    var p :| p in Preds(arcs, w[0], pool);
    WalkPrepend(arcs, p, w);
    if p in w {
      var k :| 0 <= k < |w| && w[k] == p;
      WalkParts(arcs, w, k);
      WalkPrepend(arcs, p, w[..k + 1]);
      assert IsCycle(arcs, [p] + w[..k + 1]);
      assert Walk(arcs, w[k..], p, w[|w| - 1]);
    } else {
      PrependFresh(pool, p, w);
      BackwardsToCycle(pool, arcs, [p] + w);
    }
  }

  /** The nodes the greedy order leaves out are exactly those on or behind a cycle. */
  lemma LeftoverIsBehindCycle(nodes: set<string>, arcs: Edges)
    requires Within(arcs, nodes)
    ensures nodes - Elems(Greedy(nodes, arcs, {})) == set x | x in nodes && BehindCycle(arcs, x)
  {
    var g := Greedy(nodes, arcs, {});
    GreedyFacts(nodes, arcs, {});
    var pool := nodes - Elems(g);
    assert {} + Elems(g) == Elems(g);
    forall x | x in pool ensures BehindCycle(arcs, x) {
      forall y | y in pool ensures Preds(arcs, y, pool) != {} {
        assert y !in Ready(nodes, arcs, Elems(g));
      }
      assert Elems([x]) == {x};
      BackwardsToCycle(pool, arcs, [x]);
    }
    forall x | x in Elems(g) ensures !BehindCycle(arcs, x) {
      SupportedNotBehindCycle(nodes, arcs, g, x);
    }
  }

  /** The nodes left out need not be on a cycle: here c only waits for one. */
  lemma LeftoverNamesBystander(a: string, b: string, c: string, arcs: Edges)
    requires a != b && b != c && a != c && arcs == {(a, b), (b, a), (b, c)}
    ensures c !in Elems(Greedy({a, b, c}, arcs, {})) && BehindCycle(arcs, c) && !Acyclic(arcs)
    ensures forall w | IsCycle(arcs, w) :: c !in w
  {
    assert IsCycle(arcs, [b, a, b]) && Walk(arcs, [b, c], b, c);
    LeftoverIsBehindCycle({a, b, c}, arcs);
    forall w, i | IsCycle(arcs, w) && 0 <= i < |w| - 1 ensures w[i] != c {
      assert (w[i], w[i + 1]) in arcs;
    }
  }

  lemma CycleNodeBehindCycle(arcs: Edges, c: seq<string>)
    requires IsCycle(arcs, c)
    ensures BehindCycle(arcs, c[0])
  {
    assert Walk(arcs, [c[0]], c[0], c[0]);
  }

  /** The greedy order is complete exactly on acyclic graphs. */
  lemma GreedyCompleteIffAcyclic(nodes: set<string>, arcs: Edges)
    requires Within(arcs, nodes)
    ensures |Greedy(nodes, arcs, {})| == |nodes| <==> Acyclic(arcs)
  {
    var g := Greedy(nodes, arcs, {});
    GreedyFacts(nodes, arcs, {});
    LeftoverIsBehindCycle(nodes, arcs);
    NoDupSize(g);
    SubsetSize(Elems(g), nodes);
    forall c | IsCycle(arcs, c) ensures c[0] in nodes - Elems(g) {
      CycleNodeBehindCycle(arcs, c);
      assert (c[0], c[1]) in arcs;
    }
    if |g| < |nodes| {
      assert nodes - Elems(g) != {};
    }
  }

  // --- minimality ---

  lemma {:induction false} GreedyLeastFrom(nodes: set<string>, arcs: Edges, done: seq<string>, rest: seq<string>)
    requires IsTopological(nodes, arcs, done + rest)
    ensures LexLe(Greedy(nodes, arcs, Elems(done)), rest)
    decreases |rest|
  {
    var t := done + rest;
    var placed := Elems(done);
    var g := Greedy(nodes, arcs, placed);
    if g != [] {
      var ready := Ready(nodes, arcs, placed);
      assert forall i | 0 <= i < |done| :: t[i] == done[i];
      assert Least(ready) in Elems(t);
      var k :| 0 <= k < |t| && t[k] == Least(ready);
      assert k >= |done|;
      var h := rest[0];
      assert t[|done|] == h;
      assert h in ready by {
        assert h in Elems(t);
        assert forall i | 0 <= i < |done| :: done[i] != h;
        forall p | p in nodes && (p, h) in arcs ensures p in placed {
          assert p in Elems(t);
          var i :| 0 <= i < |t| && t[i] == p;
          assert p == done[i];
        }
      }
      if g[0] == h {
        assert done + [h] + rest[1..] == t;
        assert Elems(done + [h]) == placed + {h};
        GreedyLeastFrom(nodes, arcs, done + [h], rest[1..]);
        assert g[1..] == Greedy(nodes, arcs, placed + {h});
      }
    }
  }

  /** No topological order is lexicographically smaller than the greedy one. */
  lemma GreedyLeast(nodes: set<string>, arcs: Edges, t: seq<string>)
    requires IsTopological(nodes, arcs, t)
    ensures LexLe(Greedy(nodes, arcs, {}), t)
  {
    assert [] + t == t;
    assert Elems<string>([]) == {};
    GreedyLeastFrom(nodes, arcs, [], t);
  }

  lemma {:induction false} LexAntisymmetric(s: seq<string>, t: seq<string>)
    requires LexLe(s, t) && LexLe(t, s)
    ensures s == t
  {
    if s != [] && t != [] {
      if s[0] == t[0] {
        LexAntisymmetric(s[1..], t[1..]);
        assert s == [s[0]] + s[1..] && t == [t[0]] + t[1..];
      } else {
        LeAntisymmetric(s[0], t[0]);
      }
    }
  }

  ghost predicate IsLeastTopological(nodes: set<string>, arcs: Edges, t: seq<string>) {
    IsTopological(nodes, arcs, t) && forall u | IsTopological(nodes, arcs, u) :: LexLe(t, u)
  }

  /** There is at most one lexicographically least topological order. */
  lemma LeastTopologicalUnique(nodes: set<string>, arcs: Edges, s: seq<string>, t: seq<string>)
    requires IsLeastTopological(nodes, arcs, s) && IsLeastTopological(nodes, arcs, t)
    ensures s == t
  {
    LexAntisymmetric(s, t);
  }
}
