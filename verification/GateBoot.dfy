/** The registry object: registration, the per-stage order and Build, and what a boot that
    succeeds guarantees about the orders it hands to the pipeline. */
module GateBoot {
  import opened ByteStrings
  import opened GateGraph
  import opened GateRegistry

  datatype Order = Order(pre: seq<Gate>, chunk: seq<Gate>, post: seq<Gate>, all: seq<Gate>)

  // --- what Build computes ---

  ghost predicate Resolves(entries: Entries, name: string) {
    name in entries && forall dep | dep in entries[name].declared.after :: dep in entries
  }

  ghost predicate AllResolve(entries: Entries) {
    forall name | name in entries :: Resolves(entries, name)
  }

  /** The first unresolved After target, names in ascending order. */
  ghost predicate FirstUnresolved(entries: Entries, name: string, dep: string) {
    && name in entries
    && (exists k :: 0 <= k < |entries[name].declared.after| && entries[name].declared.after[k] == dep && dep !in entries
                    && forall j | 0 <= j < k :: entries[name].declared.after[j] in entries)
    && (forall other | other in entries && !Resolves(entries, other) :: Le(name, other))
  }

  ghost predicate BuildOutcome(entries: Entries, r: Result<Order>) {
    var pre := StageOrder(entries, PreRequest);
    var chunk := StageOrder(entries, OnResponseChunk);
    var post := StageOrder(entries, PostResponse);
    if !AllResolve(entries) then r.Err? && r.error.UnknownAfter? && FirstUnresolved(entries, r.error.name, r.error.dep)
    else if pre.Err? then r == Err(pre.error)
    else if chunk.Err? then r == Err(chunk.error)
    else if post.Err? then r == Err(post.error)
    else
      AscendingFacts(entries.Keys);
      r == Ok(Order(pre.value, chunk.value, post.value, GatesOf(entries, Ascending(entries.Keys))))
  }

  lemma EmptyStage(entries: Entries, stage: Stage)
    requires StageNodes(entries, stage) == {}
    ensures StageOrder(entries, stage) == Ok([])
  {
    assert Ready({}, StageEdges(entries, stage), {}) == {};
  }

  // --- edges ---

  function WritersOf(writers: map<Field, seq<string>>, f: Field): seq<string> {
    if f in writers then writers[f] else []
  }

  ghost predicate HasEdge(edges: map<string, set<string>>, a: string, b: string) {
    a in edges && b in edges[a]
  }

  method AddEdge(before: map<string, set<string>>, from: string, to: string) returns (edges: map<string, set<string>>)
    ensures forall a, b :: HasEdge(edges, a, b) <==> HasEdge(before, a, b) || (a == from && b == to && from != to)
    ensures edges.Keys <= before.Keys + {from}
  {
    edges := before;
    if from == to { return; }
    if from !in edges {
      edges := edges[from := {}];
    }
    edges := edges[from := edges[from] + {to}];
  }

  method AddEdges(before: map<string, set<string>>, sources: seq<string>, to: string) returns (edges: map<string, set<string>>)
    ensures forall a, b :: HasEdge(edges, a, b) <==> HasEdge(before, a, b) || (a in sources && b == to && a != to)
    ensures edges.Keys <= before.Keys + Elems(sources)
  {
    edges := before;
    for i := 0 to |sources|
      invariant edges.Keys <= before.Keys + Elems(sources)
      invariant forall a, b :: HasEdge(edges, a, b) <==> HasEdge(before, a, b) || (a in sources[..i] && b == to && a != to)
    {
      edges := AddEdge(edges, sources[i], to);
      assert sources[..i + 1] == sources[..i] + [sources[i]];
    }
  }

  /** Gate id is added to the writers of each of its fields. */
  method AddWriter(before: map<Field, seq<string>>, fields: seq<Field>, id: string) returns (writers: map<Field, seq<string>>)
    ensures forall f, a :: a in WritersOf(writers, f) <==> a in WritersOf(before, f) || (a == id && f in fields)
  {
    writers := before;
    for i := 0 to |fields|
      invariant forall f, a :: a in WritersOf(writers, f) <==> a in WritersOf(before, f) || (a == id && f in fields[..i])
    {
      writers := writers[fields[i] := WritersOf(writers, fields[i]) + [id]];
      assert fields[..i + 1] == fields[..i] + [fields[i]];
    }
    assert fields[..|fields|] == fields;
  }

  /** Gate a writes one of the fields. */
  ghost predicate WritesOneOf(writers: map<Field, seq<string>>, fields: seq<Field>, a: string) {
    exists f :: f in fields && a in WritersOf(writers, f)
  }

  lemma WritesOneMore(writers: map<Field, seq<string>>, fields: seq<Field>, f: Field, a: string)
    ensures WritesOneOf(writers, fields + [f], a) <==> WritesOneOf(writers, fields, a) || a in WritersOf(writers, f)
  {
    if a in WritersOf(writers, f) { assert f in fields + [f]; }
    if g :| g in fields && a in WritersOf(writers, g) { assert g in fields + [f]; }
  }

  method EdgesFromWriters(before: map<string, set<string>>, writers: map<Field, seq<string>>, observes: seq<Field>, id: string,
                          ghost nodes: set<string>)
    returns (edges: map<string, set<string>>)
    requires forall f, a :: a in WritersOf(writers, f) ==> a in nodes
    ensures forall a, b :: HasEdge(edges, a, b) <==>
                           HasEdge(before, a, b) || (b == id && a != id && WritesOneOf(writers, observes, a))
    ensures edges.Keys <= before.Keys + nodes
  {
    edges := before;
    for i := 0 to |observes|
      invariant edges.Keys <= before.Keys + nodes
      invariant forall a, b :: HasEdge(edges, a, b) <==>
                               HasEdge(before, a, b) || (b == id && a != id && WritesOneOf(writers, observes[..i], a))
    {
      edges := AddEdges(edges, WritersOf(writers, observes[i]), id);
      assert observes[..i + 1] == observes[..i] + [observes[i]];
      forall a { WritesOneMore(writers, observes[..i], observes[i], a); }
    }
    assert observes[..|observes|] == observes;
  }

  method EdgesFromAfter(before: map<string, set<string>>, after: seq<string>, id: string, nodes: set<string>)
    returns (edges: map<string, set<string>>)
    ensures forall a, b :: HasEdge(edges, a, b) <==>
                           HasEdge(before, a, b) || (b == id && a != id && a in nodes && a in after)
    ensures edges.Keys <= before.Keys + nodes
  {
    edges := before;
    for i := 0 to |after|
      invariant edges.Keys <= before.Keys + nodes
      invariant forall a, b :: HasEdge(edges, a, b) <==>
                               HasEdge(before, a, b) || (b == id && a != id && a in nodes && a in after[..i])
    {
      if after[i] in nodes {
        edges := AddEdge(edges, after[i], id);
      }
      assert after[..i + 1] == after[..i] + [after[i]];
    }
    assert after[..|after|] == after;
  }

  /** The edges into every gate but those still to do. */
  ghost predicate Gathered(edges: map<string, set<string>>, arcs: Edges, todo: set<string>) {
    forall a, b :: HasEdge(edges, a, b) <==> b !in todo && (a, b) in arcs
  }

  lemma GatheredOneMore(before: map<string, set<string>>, edges: map<string, set<string>>, arcs: Edges, todo: set<string>,
                        id: string)
    requires Gathered(before, arcs, todo) && id in todo
    requires forall a, b :: HasEdge(edges, a, b) <==> HasEdge(before, a, b) || (b == id && (a, id) in arcs)
    ensures Gathered(edges, arcs, todo - {id})
  {
  }

  lemma GatheredRepresents(edges: map<string, set<string>>, nodes: set<string>, arcs: Edges)
    requires Gathered(edges, arcs, {}) && edges.Keys <= nodes && Within(arcs, nodes)
    ensures Represents(edges, nodes, arcs)
  {
    forall a, b ensures (a, b) in arcs <==> a in edges && b in edges[a] {
      assert HasEdge(edges, a, b) <==> (a, b) in arcs;
    }
  }

  lemma StageWithin(entries: Entries, stage: Stage)
    ensures Within(StageEdges(entries, stage), StageNodes(entries, stage))
  {
  }

  lemma NoArcsInto(entries: Entries, stage: Stage, id: string)
    requires id !in StageNodes(entries, stage)
    ensures forall a :: (a, id) !in StageEdges(entries, stage)
  {
  }

  lemma ArcIff(entries: Entries, stage: Stage, a: string, id: string)
    requires id in StageNodes(entries, stage)
    ensures (a, id) in StageEdges(entries, stage)
       <==> a in StageNodes(entries, stage) && a != id && Depends(entries[id].declared, a, entries[a].declared)
  {
  }

  lemma WritesOneOfIff(entries: Entries, writers: map<Field, seq<string>>, nodes: set<string>, fields: seq<Field>, a: string)
    requires a in nodes && nodes <= entries.Keys
    requires forall f, x :: x in WritersOf(writers, f) <==> x in nodes && f in entries[x].declared.alters
    ensures WritesOneOf(writers, fields, a) <==> exists f :: f in entries[a].declared.alters && f in fields
  {
    if f :| f in fields && a in WritersOf(writers, f) { assert f in entries[a].declared.alters; }
    if f :| f in entries[a].declared.alters && f in fields { assert a in WritersOf(writers, f); }
  }

  /** Position of the first unregistered target, or the length. */
  method FirstUnregistered(names: set<string>, after: seq<string>) returns (k: nat)
    ensures k <= |after| && (k < |after| ==> after[k] !in names)
    ensures forall j | 0 <= j < k :: after[j] in names
  {
    k := 0;
    while k < |after| && after[k] in names
      invariant k <= |after| && forall j | 0 <= j < k :: after[j] in names
    {
      k := k + 1;
    }
  }

  /** Every explicit After target must resolve. */
  method CheckAfters(names: set<string>, declared: map<string, Declared>, sortedNames: seq<string>, ghost entries: Entries)
    returns (e: Option<BootError>)
    requires names == entries.Keys && declared.Keys == entries.Keys && sortedNames == Ascending(entries.Keys)
    requires forall n | n in entries :: declared[n] == entries[n].declared
    ensures e.None? ==> AllResolve(entries)
    ensures e.Some? ==> !AllResolve(entries) && e.value.UnknownAfter? && FirstUnresolved(entries, e.value.name, e.value.dep)
  {
    for i := 0 to |sortedNames|
      invariant forall k | 0 <= k < i :: Resolves(entries, sortedNames[k])
    {
      var name := sortedNames[i];
      assert name in Elems(sortedNames);
      var after := declared[name].after;
      var k := FirstUnregistered(names, after);
      if k < |after| {
        FirstIsUnresolved(entries, sortedNames, i, k);
        return Some(UnknownAfter(name, after[k]));
      }
      ResolvesAll(entries, name);
    }
    forall name | name in entries ensures Resolves(entries, name) {
      assert name in Elems(sortedNames);
    }
    return None;
  }

  class Registry {
    var names: set<string>
    var gates: seq<Gate>
    var declared: map<string, Declared>
    /** The registrations accepted so far, by name. */
    ghost var entries: Entries

    ghost predicate Valid()
      reads this
    {
      && names == entries.Keys && declared.Keys == entries.Keys
      && CoherentEntries(entries)
      && (forall n | n in entries :: declared[n] == entries[n].declared)
      && (forall g | g in gates :: g.id in entries && entries[g.id].gate == g)
      && (forall n | n in entries :: entries[n].gate in gates)
      && (forall i, j :: 0 <= i < j < |gates| ==> gates[i].id != gates[j].id)
    }

    constructor ()
      ensures Valid() && entries == map[]
    {
      names, gates, declared, entries := {}, [], map[], map[];
    }

    /** Accepts exactly the sound registrations under a new name, and reports the first defect of any other. */
    method RegisterGate(r: Registration) returns (e: Option<BootError>)
      requires Valid()
      modifies this
      ensures Valid()
      ensures e.None? <==> Sound(r) && r.name !in old(entries)
      ensures entries == if e.None? then old(entries)[r.name := EntryOf(r)] else old(entries)
      ensures e.Some? ==> unchanged(this)
      ensures e.None? ==> forall f :: !Defect(f, r, old(names))
      ensures e.Some? ==> Defect(e.value, r, old(names)) && forall f | Defect(f, r, old(names)) :: Rank(e.value) <= Rank(f)
    {
      if Blank(r.name) { return Some(EmptyName); }
      if r.factory.NilFactory? { return Some(FactoryIsNil); }
      if r.name in names { return Some(Duplicate); }
      if r.factory.MakesNil? { return Some(GateIsNil); }
      var g := r.factory.gate;
      if g.id != r.name { return Some(WrongId); }
      if g.stages == {} { return Some(NoStage); }
      var d := Declared(g.stages, [], [], []);
      if g.declares.Some? {
        d := g.declares.value;
        if d.stages != g.stages { return Some(StagesDiffer); }
      }
      if g.policy == FailOpen && WritesSecurityField(d.alters) { return Some(SecurityFailOpen); }
      if PostOnly(d.stages) && g.policy == FailClosed { return Some(PostOnlyFailClosed); }
      Admit(g, d);
      return None;
    }

    method Admit(g: Gate, d: Declared)
      requires Valid() && g.id !in names && d == DeclaredOf(g) && Coherent(g.id, g)
      modifies this
      ensures Valid() && entries == old(entries)[g.id := Entry(g, d)]
    {
      names := names + {g.id};
      gates := gates + [g];
      declared := declared[g.id := d];
      entries := entries[g.id := Entry(g, d)];
    }

    /** For each field, the gates of the stage that write it. */
    method CollectWriters(stage: Stage) returns (writers: map<Field, seq<string>>)
      requires Valid()
      ensures forall f, a :: a in WritersOf(writers, f) <==>
                             a in StageNodes(entries, stage) && f in entries[a].declared.alters
    {
      writers := map[];
      var todo := declared.Keys;
      while todo != {}
        invariant todo <= declared.Keys
        invariant forall f, a :: a in WritersOf(writers, f) <==>
                                 a in StageNodes(entries, stage) && a !in todo && f in entries[a].declared.alters
      {
        var id :| id in todo;
        todo := todo - {id};
        if stage in declared[id].stages {
          writers := AddWriter(writers, declared[id].alters, id);
        }
      }
    }

    /** The edges into one gate: writers of what it observes, and its explicit dependencies in the stage. */
    method EdgesInto(before: map<string, set<string>>, stage: Stage, nodes: set<string>,
                     writers: map<Field, seq<string>>, id: string) returns (edges: map<string, set<string>>)
      requires Valid() && nodes == StageNodes(entries, stage) && id in nodes
      requires forall f, a :: a in WritersOf(writers, f) <==> a in nodes && f in entries[a].declared.alters
      ensures forall a, b :: HasEdge(edges, a, b) <==>
                             HasEdge(before, a, b) || (b == id && (a, id) in StageEdges(entries, stage))
      ensures edges.Keys <= before.Keys + nodes
    {
      var d := declared[id];
      edges := EdgesFromWriters(before, writers, d.observes, id, nodes);
      ghost var middle := edges;
      edges := EdgesFromAfter(edges, d.after, id, nodes);
      forall a, b ensures HasEdge(edges, a, b) <==> HasEdge(before, a, b) || (b == id && (a, id) in StageEdges(entries, stage)) {
        ArcIff(entries, stage, a, id);
        assert HasEdge(edges, a, b) <==> HasEdge(middle, a, b) || (b == id && a != id && a in nodes && a in d.after);
        assert HasEdge(middle, a, b) <==> HasEdge(before, a, b) || (b == id && a != id && WritesOneOf(writers, d.observes, a));
        if a in nodes { WritesOneOfIff(entries, writers, nodes, d.observes, a); }
      }
    }

    method CollectEdges(stage: Stage, nodes: set<string>, writers: map<Field, seq<string>>)
      returns (edges: map<string, set<string>>)
      requires Valid() && nodes == StageNodes(entries, stage)
      requires forall f, a :: a in WritersOf(writers, f) <==> a in nodes && f in entries[a].declared.alters
      ensures Represents(edges, nodes, StageEdges(entries, stage))
    {
      ghost var arcs := StageEdges(entries, stage);
      edges := map[];
      var todo := declared.Keys;
      while todo != {}
        invariant todo <= declared.Keys && edges.Keys <= nodes
        invariant Gathered(edges, arcs, todo)
      {
        var id :| id in todo;
        ghost var start := edges;
        if stage in declared[id].stages {
          edges := EdgesInto(edges, stage, nodes, writers, id);
          GatheredOneMore(start, edges, arcs, todo, id);
        } else {
          NoArcsInto(entries, stage, id);
          GatheredOneMore(start, edges, arcs, todo, id);
        }
        todo := todo - {id};
      }
      StageWithin(entries, stage);
      GatheredRepresents(edges, nodes, arcs);
    }

    /** The gates that declare the stage, by ID. */
    method NodesOf(stage: Stage) returns (nodes: map<string, Gate>)
      requires Valid()
      ensures nodes.Keys == StageNodes(entries, stage)
      ensures forall n | n in nodes :: nodes[n] == entries[n].gate
    {
      nodes := map[];
      for i := 0 to |gates|
        invariant forall n :: n in nodes <==> exists j :: 0 <= j < i && gates[j].id == n && stage in entries[n].declared.stages
        invariant forall n | n in nodes :: nodes[n] == entries[n].gate
      {
        if stage in declared[gates[i].id].stages {
          nodes := nodes[gates[i].id := gates[i]];
        }
      }
      forall n | n in StageNodes(entries, stage) ensures n in nodes {
        var j :| 0 <= j < |gates| && gates[j] == entries[n].gate;
      }
    }

    /** One stage's order. */
    method OrderStage(stage: Stage) returns (r: Result<seq<Gate>>)
      requires Valid()
      ensures r == StageOrder(entries, stage)
    {
      var nodes := NodesOf(stage);
      if |nodes| == 0 {
        EmptyStage(entries, stage);
        return Ok([]);
      }
      var writers := CollectWriters(stage);
      var edges := CollectEdges(stage, nodes.Keys, writers);
      var sorted := Kahn(nodes.Keys, edges, StageEdges(entries, stage));
      SortSpecNodes(nodes.Keys, StageEdges(entries, stage));
      if sorted.Err? { return Err(sorted.error); }
      var out := PickGates(entries, nodes, sorted.value);
      return Ok(out);
    }

    /** Validates the whole graph and orders every stage. */
    method Build() returns (r: Result<Order>)
      requires Valid()
      ensures BuildOutcome(entries, r)
    {
      var sortedNames := SortedNames();
      var unresolved := CheckAfters(names, declared, sortedNames, entries);
      if unresolved.Some? { return Err(unresolved.value); }
      var pre := OrderStage(PreRequest);
      if pre.Err? { return Err(pre.error); }
      var chunk := OrderStage(OnResponseChunk);
      if chunk.Err? { return Err(chunk.error); }
      var post := OrderStage(PostResponse);
      if post.Err? { return Err(post.error); }
      var byId := ByID();
      AscendingFacts(entries.Keys);
      var all := PickGates(entries, byId, sortedNames);
      return Ok(Order(pre.value, chunk.value, post.value, all));
    }

    method SortedNames() returns (sorted: seq<string>)
      requires Valid()
      ensures sorted == Ascending(entries.Keys)
    {
      var ids: seq<string> := [];
      for i := 0 to |gates|
        invariant |ids| == i && forall k | 0 <= k < i :: ids[k] == gates[k].id
      {
        ids := ids + [gates[i].id];
      }
      forall n ensures n in ids <==> n in entries {
        if n in entries {
          var j :| 0 <= j < |gates| && gates[j] == entries[n].gate;
          assert ids[j] == n;
        }
      }
      assert Elems(ids) == entries.Keys;
      sorted := Sort(ids);
    }

    method ByID() returns (byId: map<string, Gate>)
      requires Valid()
      ensures byId.Keys == entries.Keys && forall n | n in byId :: byId[n] == entries[n].gate
    {
      byId := map[];
      for i := 0 to |gates|
        invariant forall n :: n in byId <==> exists j :: 0 <= j < i && gates[j].id == n
        invariant forall n | n in byId :: n in entries && byId[n] == entries[n].gate
      {
        byId := byId[gates[i].id := gates[i]];
      }
      forall n | n in entries ensures n in byId {
        var j :| 0 <= j < |gates| && gates[j] == entries[n].gate;
      }
    }
  }

  method PickGates(ghost entries: Entries, nodes: map<string, Gate>, ids: seq<string>) returns (out: seq<Gate>)
    requires Elems(ids) <= nodes.Keys <= entries.Keys
    requires forall n | n in nodes :: nodes[n] == entries[n].gate
    ensures out == GatesOf(entries, ids)
  {
    out := [];
    for i := 0 to |ids|
      invariant out == GatesOf(entries, ids)[..i]
    {
      assert ids[i] in Elems(ids);
      out := out + [nodes[ids[i]]];
    }
  }

  lemma ResolvesAll(entries: Entries, name: string)
    requires name in entries
    requires forall j | 0 <= j < |entries[name].declared.after| :: entries[name].declared.after[j] in entries
    ensures Resolves(entries, name)
  {
  }

  lemma FirstIsUnresolved(entries: Entries, sortedNames: seq<string>, i: nat, k: nat)
    requires sortedNames == Ascending(entries.Keys) && i < |sortedNames|
    requires forall j | 0 <= j < i :: Resolves(entries, sortedNames[j])
    requires sortedNames[i] in entries && k < |entries[sortedNames[i]].declared.after|
    requires entries[sortedNames[i]].declared.after[k] !in entries
    requires forall j | 0 <= j < k :: entries[sortedNames[i]].declared.after[j] in entries
    ensures !AllResolve(entries)
    ensures FirstUnresolved(entries, sortedNames[i], entries[sortedNames[i]].declared.after[k])
  {
    AscendingFacts(entries.Keys);
    var name := sortedNames[i];
    assert entries[name].declared.after[k] in entries[name].declared.after;
    assert !Resolves(entries, name);
    forall other | other in entries && !Resolves(entries, other) ensures Le(name, other) {
      assert other in Elems(sortedNames);
      var j :| 0 <= j < |sortedNames| && sortedNames[j] == other;
      LeTotal(name, name);
    }
  }
}
