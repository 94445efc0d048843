/** The boot-time gate registry (internal/gates/registry.go): registration checks, the
    dependency graph of each stage, and the deterministic topological sort. Every Go map
    iteration is a loop over a set that picks an arbitrary element with `:|`. */
module GateRegistry {
  import opened ByteStrings
  import opened GateGraph

  datatype Option<+T> = None | Some(value: T)

  datatype Stage = PreRequest | OnResponseChunk | PostResponse
  datatype Field = Modality | CacheLookup | Context | PromptText | PrefixRange | PII | InjectionFlag | Budget | Route
  datatype Policy = FailClosed | FailOpen

  datatype Declared = Declared(stages: set<Stage>, observes: seq<Field>, alters: seq<Field>, after: seq<string>)

  /** `declares` is None for a gate that does not implement GateDeclarer. */
  datatype Gate = Gate(id: string, stages: set<Stage>, policy: Policy, declares: Option<Declared>)

  datatype Factory = NilFactory | MakesNil | Makes(gate: Gate)

  datatype BootError =
    | EmptyName | FactoryIsNil | Duplicate | GateIsNil | WrongId | NoStage | StagesDiffer
    | SecurityFailOpen | PostOnlyFailClosed
    | UnknownAfter(name: string, dep: string)
    | DependencyCycle(names: seq<string>)

  datatype Result<+T> = Ok(value: T) | Err(error: BootError)

  // --- what a registration must satisfy ---

  predicate IsSpace(c: char) {
    c in {' ', '\t', '\n', '\r', '\U{000B}', '\U{000C}', '\U{0085}', '\U{00A0}', '\U{1680}', '\U{2028}', '\U{2029}',
          '\U{202F}', '\U{205F}', '\U{3000}'} || '\U{2000}' <= c <= '\U{200A}'
  }

  predicate Blank(name: string) { forall c | c in name :: IsSpace(c) }

  predicate WritesSecurityField(writes: seq<Field>) { PII in writes || InjectionFlag in writes }

  predicate PostOnly(stages: set<Stage>) { stages == {PostResponse} }

  function DeclaredOf(g: Gate): Declared {
    match g.declares case Some(d) => d case None => Declared(g.stages, [], [], [])
  }

  datatype Registration = Registration(name: string, factory: Factory)
  datatype Entry = Entry(gate: Gate, declared: Declared)

  /** A gate whose name, stages and failure policy are coherent. */
  predicate Coherent(name: string, g: Gate) {
    var d := DeclaredOf(g);
    && g.id == name
    && g.stages != {}
    && d.stages == g.stages
    && (WritesSecurityField(d.alters) ==> g.policy == FailClosed)
    && (PostOnly(d.stages) ==> g.policy == FailOpen)
  }

  predicate Sound(r: Registration) {
    !Blank(r.name) && r.factory.Makes? && Coherent(r.name, r.factory.gate)
  }

  /** What a registration error says of the registration. */
  predicate Defect(e: BootError, r: Registration, known: set<string>) {
    match e
    case EmptyName => Blank(r.name)
    case FactoryIsNil => r.factory.NilFactory?
    case Duplicate => r.name in known
    case GateIsNil => r.factory.MakesNil?
    case WrongId => r.factory.Makes? && r.factory.gate.id != r.name
    case NoStage => r.factory.Makes? && r.factory.gate.stages == {}
    case StagesDiffer => r.factory.Makes? && DeclaredOf(r.factory.gate).stages != r.factory.gate.stages
    case SecurityFailOpen =>
      r.factory.Makes? && WritesSecurityField(DeclaredOf(r.factory.gate).alters) && r.factory.gate.policy == FailOpen
    case PostOnlyFailClosed =>
      r.factory.Makes? && PostOnly(DeclaredOf(r.factory.gate).stages) && r.factory.gate.policy == FailClosed
    case _ => false
  }

  /** The order in which defects are looked for. */
  function Rank(e: BootError): nat {
    match e
    case EmptyName => 0 case FactoryIsNil => 1 case Duplicate => 2 case GateIsNil => 3 case WrongId => 4 case NoStage => 5
    case StagesDiffer => 6 case SecurityFailOpen => 7 case PostOnlyFailClosed => 8 case _ => 9
  }

  function EntryOf(r: Registration): Entry
    requires Sound(r)
  {
    Entry(r.factory.gate, DeclaredOf(r.factory.gate))
  }

  type Entries = map<string, Entry>

  ghost predicate CoherentEntries(entries: Entries) {
    forall n | n in entries :: Coherent(n, entries[n].gate) && entries[n].declared == DeclaredOf(entries[n].gate)
  }

  // --- the stage graphs ---

  ghost function StageNodes(entries: Entries, stage: Stage): set<string> {
    set n | n in entries && stage in entries[n].declared.stages
  }

  /** b must run after a: a writes a field b reads, or b names a. */
  ghost predicate Depends(b: Declared, a: string, aDecl: Declared) {
    (exists f :: f in aDecl.alters && f in b.observes) || a in b.after
  }

  ghost function StageEdges(entries: Entries, stage: Stage): Edges {
    var nodes := StageNodes(entries, stage);
    set a, b | a in nodes && b in nodes && a != b && Depends(entries[b].declared, a, entries[a].declared) :: (a, b)
  }

  /** The least topological order, or the gates on and behind cycles. */
  ghost function SortSpec(nodes: set<string>, arcs: Edges): Result<seq<string>> {
    var g := Greedy(nodes, arcs, {});
    if |g| == |nodes| then Ok(g) else Err(DependencyCycle(Ascending(nodes - Elems(g))))
  }

  ghost function GatesOf(entries: Entries, ids: seq<string>): (r: seq<Gate>)
    requires Elems(ids) <= entries.Keys
    ensures |r| == |ids|
  {
    seq(|ids|, i requires 0 <= i < |ids| => assert ids[i] in Elems(ids); entries[ids[i]].gate)
  }

  lemma SortSpecNodes(nodes: set<string>, arcs: Edges)
    ensures SortSpec(nodes, arcs).Ok? ==> Elems(SortSpec(nodes, arcs).value) <= nodes
  {
    GreedyFacts(nodes, arcs, {});
  }

  ghost function StageOrder(entries: Entries, stage: Stage): Result<seq<Gate>> {
    var nodes := StageNodes(entries, stage);
    SortSpecNodes(nodes, StageEdges(entries, stage));
    match SortSpec(nodes, StageEdges(entries, stage))
    case Ok(ids) => Ok(GatesOf(entries, ids))
    case Err(e) => Err(e)
  }

  // --- Kahn's algorithm ---

  /** The adjacency map `edges` holds exactly the edges arcs, all of them between `nodes`. */
  ghost predicate Represents(edges: map<string, set<string>>, nodes: set<string>, arcs: Edges) {
    && (forall a | a in edges :: a in nodes && edges[a] <= nodes)
    && (forall a, b :: (a, b) in arcs <==> a in edges && b in edges[a])
  }

  lemma PredsAdd(arcs: Edges, x: string, S: set<string>, p: string)
    requires p !in S
    ensures Preds(arcs, x, S + {p}) == Preds(arcs, x, S) + (if (p, x) in arcs then {p} else {})
    ensures |Preds(arcs, x, S + {p})| == |Preds(arcs, x, S)| + (if (p, x) in arcs then 1 else 0)
  {
    assert Preds(arcs, x, S + {p}) == Preds(arcs, x, S) + (if (p, x) in arcs then {p} else {});
  }

  /** The counter of x is the number of its predecessors in `waiting`. */
  ghost predicate Counts(arcs: Edges, nodes: set<string>, waiting: set<string>, indegree: map<string, int>) {
    indegree.Keys == nodes && forall x | x in nodes :: indegree[x] == |Preds(arcs, x, waiting)|
  }

  lemma PopOne<T>(all: set<T>, todo: set<T>, x: T)
    requires todo <= all && x in todo
    ensures all - (todo - {x}) == (all - todo) + {x} && x !in all - todo
  {
  }

  lemma CountsNothing(arcs: Edges, nodes: set<string>)
    ensures Counts(arcs, nodes, {}, map id | id in nodes :: 0)
  {
    assert forall x | x in nodes :: Preds(arcs, x, {}) == {};
  }

  lemma CountsFromSources(arcs: Edges, nodes: set<string>, sources: set<string>, indegree: map<string, int>)
    requires sources <= nodes && forall a, b :: (a, b) in arcs ==> a in sources
    requires Counts(arcs, nodes, sources, indegree)
    ensures Counts(arcs, nodes, nodes, indegree)
  {
    forall x | x in nodes ensures Preds(arcs, x, sources) == Preds(arcs, x, nodes) {
    }
  }

  /** One more edge source counted: its targets gain one. */
  method CountTargets(ghost arcs: Edges, ghost nodes: set<string>, ghost done: set<string>, from: string, targets: set<string>,
                      before: map<string, int>)
    returns (indegree: map<string, int>)
    requires Counts(arcs, nodes, done, before) && from !in done && targets <= nodes
    requires forall x :: x in targets <==> (from, x) in arcs
    ensures Counts(arcs, nodes, done + {from}, indegree)
  {
    indegree := before;
    var tos := targets;
    while tos != {}
      invariant tos <= targets && indegree.Keys == nodes
      invariant forall x | x in nodes :: indegree[x] == before[x] + (if x in targets - tos then 1 else 0)
    {
      var to :| to in tos;
      indegree := indegree[to := indegree[to] + 1];
      tos := tos - {to};
    }
    forall x | x in nodes ensures indegree[x] == |Preds(arcs, x, done + {from})| {
      PredsAdd(arcs, x, done, from);
    }
  }

  method CountIndegrees(nodes: set<string>, edges: map<string, set<string>>, ghost arcs: Edges)
    returns (indegree: map<string, int>)
    requires Represents(edges, nodes, arcs)
    ensures Counts(arcs, nodes, nodes, indegree)
  {
    indegree := map id | id in nodes :: 0;
    var todo := edges.Keys;
    CountsNothing(arcs, nodes);
    ghost var sources := todo;
    assert sources - todo == {};
    while todo != {}
      invariant todo <= sources
      invariant Counts(arcs, nodes, sources - todo, indegree)
    {
      var from :| from in todo;
      indegree := CountTargets(arcs, nodes, sources - todo, from, edges[from], indegree);
      PopOne(sources, todo, from);
      todo := todo - {from};
    }
    assert sources - todo == sources;
    CountsFromSources(arcs, nodes, sources, indegree);
  }

  method InitialReady(ghost arcs: Edges, nodes: set<string>, indegree: map<string, int>) returns (ready: seq<string>)
    requires Counts(arcs, nodes, nodes, indegree)
    ensures NoDup(ready) && Elems(ready) == Ready(nodes, arcs, {})
  {
    ready := [];
    var todo := nodes;
    while todo != {}
      invariant todo <= nodes
      invariant NoDup(ready) && forall x :: x in ready <==> x in nodes - todo && indegree[x] == 0
    {
      var id :| id in todo;
      todo := todo - {id};
      if indegree[id] == 0 {
        ready := ready + [id];
      }
    }
    assert nodes - {} == nodes;
    forall x | x in nodes ensures indegree[x] == 0 <==> Preds(arcs, x, nodes) == {} {
    }
  }

  /** Between two decrements: `tos` are the successors still to count down. */
  ghost predicate Releasing(arcs: Edges, nodes: set<string>, rest: set<string>, tos: set<string>, indegree: map<string, int>,
                            ready: seq<string>) {
    && indegree.Keys == nodes
    && (forall x | x in nodes :: indegree[x] == |Preds(arcs, x, rest)| + (if x in tos then 1 else 0))
    && NoDup(ready) && forall x :: x in ready <==> x in rest && x !in tos && |Preds(arcs, x, rest)| == 0
  }

  lemma ReleaseOne(arcs: Edges, nodes: set<string>, rest: set<string>, tos: set<string>, to: string,
                   indegree: map<string, int>, ready: seq<string>)
    requires Releasing(arcs, nodes, rest, tos, indegree, ready) && to in tos && to in rest && to in nodes
    ensures var next := indegree[to := indegree[to] - 1];
      Releasing(arcs, nodes, rest, tos - {to}, next, if next[to] == 0 then ready + [to] else ready)
  {
    assert to !in ready;
  }

  /** Releases the successors of the node just placed. `waiting` still contains that node. */
  method Release(ghost arcs: Edges, ghost nodes: set<string>, ghost waiting: set<string>, id: string, targets: set<string>,
                 before: map<string, int>, queue: seq<string>)
    returns (indegree: map<string, int>, ready: seq<string>)
    requires id in waiting && waiting <= nodes && targets <= nodes && id !in targets
    requires forall x :: x in targets <==> (id, x) in arcs
    requires Counts(arcs, nodes, waiting, before)
    requires NoDup(queue) && forall x :: x in queue <==> x in waiting && x != id && Preds(arcs, x, waiting) == {}
    requires targets <= waiting
    ensures Counts(arcs, nodes, waiting - {id}, indegree)
    ensures NoDup(ready)
    ensures forall x :: x in ready <==> x in waiting - {id} && Preds(arcs, x, waiting - {id}) == {}
  {
    indegree, ready := before, queue;
    ghost var rest := waiting - {id};
    forall x | x in nodes ensures before[x] == |Preds(arcs, x, rest)| + (if x in targets then 1 else 0) {
      assert rest + {id} == waiting;
      PredsAdd(arcs, x, rest, id);
    }
    var tos := targets;
    while tos != {}
      invariant tos <= targets && Releasing(arcs, nodes, rest, tos, indegree, ready)
    {
      var to :| to in tos;
      ReleaseOne(arcs, nodes, rest, tos, to, indegree, ready);
      tos := tos - {to};
      indegree := indegree[to := indegree[to] - 1];
      if indegree[to] == 0 {
        ready := ready + [to];
      }
    }
    forall x | x in rest ensures |Preds(arcs, x, rest)| == 0 <==> Preds(arcs, x, rest) == {} {
    }
  }

  /** The nodes whose in-degree is still positive, sorted. */
  method Remaining(nodes: set<string>, indegree: map<string, int>) returns (cycle: seq<string>)
    requires indegree.Keys == nodes
    ensures cycle == Ascending(set x | x in nodes && indegree[x] > 0)
  {
    var names: seq<string> := [];
    var todo := nodes;
    while todo != {}
      invariant todo <= nodes
      invariant NoDup(names) && forall x :: x in names <==> x in nodes - todo && indegree[x] > 0
    {
      var id :| id in todo;
      todo := todo - {id};
      if indegree[id] > 0 {
        names := names + [id];
      }
    }
    assert Elems(names) == set x | x in nodes && indegree[x] > 0;
    cycle := Sort(names);
  }

  /** The state of the sort between two rounds: `done` is placed, `ready` is the queue. */
  ghost predicate Sorting(nodes: set<string>, arcs: Edges, done: set<string>, ready: seq<string>, indegree: map<string, int>) {
    && done <= nodes
    && Counts(arcs, nodes, nodes - done, indegree)
    && NoDup(ready) && Elems(ready) == Ready(nodes, arcs, done)
    && (forall x | x in done :: Preds(arcs, x, nodes - done) == {})
  }

  /** The successors of a waiting node are still waiting. */
  lemma SuccessorsWait(nodes: set<string>, arcs: Edges, done: set<string>, id: string)
    requires Within(arcs, nodes) && id in Ready(nodes, arcs, done)
    requires forall x | x in done :: Preds(arcs, x, nodes - done) == {}
    ensures forall x :: (id, x) in arcs ==> x in nodes - done && x != id
  {
    forall x | (id, x) in arcs ensures x in nodes - done && x != id {
      assert id in Preds(arcs, x, nodes - done);
    }
  }

  /** The queue without its sorted head. */
  lemma QueueTail(nodes: set<string>, arcs: Edges, done: set<string>, tail: seq<string>, id: string)
    requires Elems(tail) == Ready(nodes, arcs, done) - {id}
    ensures forall x :: x in tail <==> x in nodes - done && x != id && Preds(arcs, x, nodes - done) == {}
  {
    forall x ensures x in tail <==> x in Ready(nodes, arcs, done) - {id} {
      assert x in tail <==> x in Elems(tail);
    }
  }

  lemma Placed(nodes: set<string>, arcs: Edges, done: set<string>, id: string, ready: seq<string>)
    requires done <= nodes && id in Ready(nodes, arcs, done)
    requires forall x | x in done :: Preds(arcs, x, nodes - done) == {}
    requires forall x :: x in ready <==> x in nodes - done - {id} && Preds(arcs, x, nodes - done - {id}) == {}
    ensures nodes - done - {id} == nodes - (done + {id})
    ensures Elems(ready) == Ready(nodes, arcs, done + {id})
    ensures forall x | x in done + {id} :: Preds(arcs, x, nodes - (done + {id})) == {}
  {
    assert nodes - done - {id} == nodes - (done + {id});
    forall x | x in done + {id} ensures Preds(arcs, x, nodes - (done + {id})) == {} {
      assert Preds(arcs, x, nodes - (done + {id})) <= Preds(arcs, x, nodes - done);
    }
  }

  /** One round: sort the queue, take its head, release the successors. */
  method Place(ghost nodes: set<string>, edges: map<string, set<string>>, ghost arcs: Edges, ghost done: set<string>,
               queue: seq<string>, before: map<string, int>)
    returns (id: string, ready: seq<string>, indegree: map<string, int>)
    requires Represents(edges, nodes, arcs)
    requires Sorting(nodes, arcs, done, queue, before) && queue != []
    ensures Ready(nodes, arcs, done) != {} && id == Least(Ready(nodes, arcs, done))
    ensures Sorting(nodes, arcs, done + {id}, ready, indegree)
  {
    assert queue[0] in Elems(queue);
    AscendingHead(Elems(queue));
    var sorted := Sort(queue);
    id := sorted[0];
    SuccessorsWait(nodes, arcs, done, id);
    QueueTail(nodes, arcs, done, sorted[1..], id);
    indegree, ready := Release(arcs, nodes, nodes - done, id, if id in edges then edges[id] else {}, before, sorted[1..]);
    Placed(nodes, arcs, done, id, ready);
  }

  /** What is placed so far is the beginning of the greedy order. */
  ghost predicate Begun(nodes: set<string>, arcs: Edges, done: set<string>, out: seq<string>) {
    Elems(out) == done && Greedy(nodes, arcs, {}) == out + Greedy(nodes, arcs, done)
  }

  lemma BegunOn(nodes: set<string>, arcs: Edges, done: set<string>, out: seq<string>, id: string)
    requires Begun(nodes, arcs, done, out) && Ready(nodes, arcs, done) != {} && id == Least(Ready(nodes, arcs, done))
    ensures Begun(nodes, arcs, done + {id}, out + [id]) && id in nodes - done
  {
    var rest := Greedy(nodes, arcs, done + {id});
    assert Greedy(nodes, arcs, done) == [id] + rest;
    assert out + ([id] + rest) == (out + [id]) + rest;
    ElemsAppend(out, id);
  }

  lemma ElemsAppend(out: seq<string>, id: string)
    ensures Elems(out + [id]) == Elems(out) + {id}
  {
  }

  /** When the queue runs empty, the unplaced nodes are those with a positive in-degree. */
  lemma Unplaced(nodes: set<string>, arcs: Edges, done: set<string>, indegree: map<string, int>)
    requires Sorting(nodes, arcs, done, [], indegree)
    ensures Ready(nodes, arcs, done) == {}
    ensures nodes - done == set x | x in nodes && indegree[x] > 0
  {
    assert Elems<string>([]) == {};
    forall x | x in nodes ensures indegree[x] > 0 <==> x !in done {
      assert x !in Ready(nodes, arcs, done);
    }
  }

  lemma SortFinished(nodes: set<string>, arcs: Edges, done: set<string>, out: seq<string>, indegree: map<string, int>)
    requires Sorting(nodes, arcs, done, [], indegree)
    requires Begun(nodes, arcs, done, out)
    ensures SortSpec(nodes, arcs) == if |out| == |nodes| then Ok(out)
                                  else Err(DependencyCycle(Ascending(set x | x in nodes && indegree[x] > 0)))
  {
    Unplaced(nodes, arcs, done, indegree);
    assert Greedy(nodes, arcs, done) == [];
    assert Greedy(nodes, arcs, {}) == out;
  }

  /** The deterministic topological sort: whatever order the maps are iterated in, the result
      is the one `SortSpec` names. */
  method Kahn(nodes: set<string>, edges: map<string, set<string>>, ghost arcs: Edges) returns (r: Result<seq<string>>)
    requires Represents(edges, nodes, arcs)
    ensures r == SortSpec(nodes, arcs)
  {
    var indegree := CountIndegrees(nodes, edges, arcs);
    var ready := InitialReady(arcs, nodes, indegree);
    var out: seq<string> := [];
    ghost var done: set<string> := {};
    var placed := 0;
    assert nodes - done == nodes;
    while ready != []
      invariant placed == |out| && Begun(nodes, arcs, done, out)
      invariant Sorting(nodes, arcs, done, ready, indegree)
      decreases nodes - done
    {
      var id: string;
      id, ready, indegree := Place(nodes, edges, arcs, done, ready, indegree);
      BegunOn(nodes, arcs, done, out, id);
      out := out + [id];
      done := done + {id};
      placed := placed + 1;
    }
    SortFinished(nodes, arcs, done, out, indegree);
    if placed != |nodes| {
      var cycle := Remaining(nodes, indegree);
      return Err(DependencyCycle(cycle));
    }
    return Ok(out);
  }
}
