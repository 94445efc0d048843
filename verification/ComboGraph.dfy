/** Combos (internal/combos/combos.go) and the paths of their reference graph. */
module ComboGraph {
  import opened ByteStrings

  const MAX_DEPTH: nat := 8
  const MAX_FANOUT: nat := 8
  const CURRENT_SCHEMA := 2

  datatype StepKind = StepModel | StepComboRef | StepProviderWildcard | UnknownKind(name: string)

  datatype Step = Step(kind: StepKind, ref: string, weight: int, allowed: seq<string>, onlyOnQuota: bool)
  {
    function WeightOrOne(): (w: int)
      ensures w >= 1
    {
      if weight <= 0 then 1 else weight
    }
  }

  datatype Strategy =
    | Priority | Fallback | RoundRobin | Weighted | FillFirst | Cost | P2C | Auto | Fusion | Pipeline
    | UnknownStrategy(name: string)

  datatype Combo = Combo(id: string, name: string, strategy: Strategy, steps: seq<Step>, schemaVer: int, depth: int)

  type Graph = map<string, Combo>

  predicate IsRef(s: Step) { s.kind.StepComboRef? }

  ghost predicate RefersTo(c: Combo, r: string) {
    exists i :: 0 <= i < |c.steps| && IsRef(c.steps[i]) && c.steps[i].ref == r
  }

  ghost predicate Edge(g: Graph, a: string, b: string) { a in g && RefersTo(g[a], b) }

  ghost predicate Path(g: Graph, p: seq<string>) {
    |p| >= 1 && forall i :: 0 <= i < |p| - 1 ==> Edge(g, p[i], p[i + 1])
  }

  ghost predicate PathFrom(g: Graph, id: string, p: seq<string>) { Path(g, p) && p[0] == id }

  /** Every reference reachable from id names a combo of the graph. */
  ghost predicate Resolves(g: Graph, id: string) {
    forall p | PathFrom(g, id, p) :: p[|p| - 1] in g
  }

  /** No path from id meets a combo twice. */
  ghost predicate AcyclicFrom(g: Graph, id: string) {
    forall p | PathFrom(g, id, p) :: NoDup(p)
  }

  ghost predicate DepthAtMost(g: Graph, id: string, d: int) {
    forall p | PathFrom(g, id, p) :: |p| - 1 <= d
  }

  /** d is the number of references on the longest path from id. */
  ghost predicate Longest(g: Graph, id: string, d: int) {
    DepthAtMost(g, id, d) && exists p :: PathFrom(g, id, p) && |p| - 1 == d
  }

  /** No reference path in the whole graph closes a cycle. */
  ghost predicate Acyclic(g: Graph) {
    forall p | Path(g, p) :: NoDup(p)
  }

  // --- paths ---

  lemma PathTail(g: Graph, p: seq<string>)
    requires Path(g, p) && |p| >= 2
    ensures PathFrom(g, p[1], p[1..]) && Edge(g, p[0], p[1])
  {
    var t := p[1..];
    forall i | 0 <= i < |t| - 1 ensures Edge(g, t[i], t[i + 1]) {
      assert t[i] == p[i + 1] && t[i + 1] == p[i + 2];
    }
  }

  lemma PathPrepend(g: Graph, a: string, p: seq<string>)
    requires Path(g, p) && Edge(g, a, p[0])
    ensures PathFrom(g, a, [a] + p)
  {
    var q := [a] + p;
    forall i | 0 <= i < |q| - 1 ensures Edge(g, q[i], q[i + 1]) {
      if i > 0 { assert q[i] == p[i - 1] && q[i + 1] == p[i]; }
    }
  }

  lemma PathSlices(g: Graph, p: seq<string>, k: nat)
    requires Path(g, p) && k < |p|
    ensures Path(g, p[..k + 1]) && PathFrom(g, p[k], p[k..])
  {
    var t := p[k..];
    forall i | 0 <= i < |t| - 1 ensures Edge(g, t[i], t[i + 1]) {
      assert t[i] == p[k + i] && t[i + 1] == p[k + i + 1];
    }
  }

  /** p followed by q, which starts where p ends. */
  lemma PathJoin(g: Graph, p: seq<string>, q: seq<string>)
    requires Path(g, p) && Path(g, q) && p[|p| - 1] == q[0]
    ensures PathFrom(g, p[0], p + q[1..])
  {
    var r := p + q[1..];
    forall i | 0 <= i < |r| - 1 ensures Edge(g, r[i], r[i + 1]) {
      if i < |p| - 1 {
        assert r[i] == p[i] && r[i + 1] == p[i + 1];
      } else {
        assert r[i] == q[i - |p| + 1] && r[i + 1] == q[i - |p| + 2];
      }
    }
  }

  /** Paths depend only on the steps. */
  ghost predicate SameSteps(g: Graph, h: Graph) {
    g.Keys == h.Keys && forall k | k in g :: g[k].steps == h[k].steps
  }

  lemma SameStepsSamePaths(g: Graph, h: Graph, p: seq<string>)
    requires SameSteps(g, h)
    ensures Path(g, p) <==> Path(h, p)
  {
    forall a, b ensures Edge(g, a, b) <==> Edge(h, a, b) {
    }
  }

  // --- depth of a node from the depths of its references ---

  /** The children bound the paths below a node. */
  lemma DepthFromChildren(g: Graph, id: string, d: nat)
    requires id in g
    requires forall r | Edge(g, id, r) :: DepthAtMost(g, r, d - 1) && Resolves(g, r)
    ensures DepthAtMost(g, id, d) && Resolves(g, id)
  {
    forall p | PathFrom(g, id, p) ensures |p| - 1 <= d && p[|p| - 1] in g {
      if |p| >= 2 {
        PathTail(g, p);
        assert p[|p| - 1] == p[1..][|p| - 2];
      }
    }
  }

  lemma LongestFromChildren(g: Graph, id: string, d: nat)
    requires id in g
    requires forall r | Edge(g, id, r) :: DepthAtMost(g, r, d - 1) && Resolves(g, r)
    requires d > 0 ==> exists r :: Edge(g, id, r) && Longest(g, r, d - 1)
    ensures Longest(g, id, d) && Resolves(g, id)
  {
    DepthFromChildren(g, id, d);
    if d == 0 {
      assert PathFrom(g, id, [id]);
    } else {
      var r :| Edge(g, id, r) && Longest(g, r, d - 1);
      var p :| PathFrom(g, r, p) && |p| - 1 == d - 1;
      PathPrepend(g, id, p);
    }
  }

  lemma LongestUnique(g: Graph, id: string, d: int, e: int)
    requires Longest(g, id, d) && Longest(g, id, e)
    ensures d == e
  {
    var p :| PathFrom(g, id, p) && |p| - 1 == d;
    var q :| PathFrom(g, id, q) && |q| - 1 == e;
  }

  // --- bounded depth and acyclicity ---

  /** A path that meets a combo twice can be stretched beyond any bound. */
  lemma {:induction false} Pump(g: Graph, p: seq<string>, i: nat, j: nat, n: nat) returns (q: seq<string>)
    requires Path(g, p) && i < j < |p| && p[i] == p[j]
    ensures PathFrom(g, p[0], q) && |q| > n
    decreases if |p| > n then 0 else n - |p| + 1
  {
    if |p| > n { return p; }
    PathSlices(g, p, i);
    PathSlices(g, p, j);
    var longer := p[..j + 1] + p[i..][1..];
    PathJoin(g, p[..j + 1], p[i..]);
    assert longer[i] == p[i] && longer[j] == p[j];
    q := Pump(g, longer, i, j, n);
  }

  lemma BoundedIsAcyclic(g: Graph, id: string, d: int)
    requires DepthAtMost(g, id, d)
    ensures AcyclicFrom(g, id)
  {
    forall p | PathFrom(g, id, p) ensures NoDup(p) {
      forall i, j | 0 <= i < j < |p| ensures p[i] != p[j] {
        if p[i] == p[j] {
          var q := Pump(g, p, i, j, if d < 0 then 0 else d + 1);
        }
      }
    }
  }
}
