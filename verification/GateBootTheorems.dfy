/** What a boot guarantees: when it succeeds, what its orders are, what a cycle error names,
    and that the registration order has no influence on any of it. */
module GateBootTheorems {
  import opened ByteStrings
  import opened GateGraph
  import opened GateRegistry
  import opened GateBoot

  function OrderOf(o: Order, stage: Stage): seq<Gate> {
    match stage case PreRequest => o.pre case OnResponseChunk => o.chunk case PostResponse => o.post
  }

  ghost function Ids(gates: seq<Gate>): seq<string> {
    seq(|gates|, i requires 0 <= i < |gates| => gates[i].id)
  }

  /** A stage sorts exactly when its graph has no cycle. */
  lemma StageSortsIffAcyclic(entries: Entries, stage: Stage)
    ensures StageOrder(entries, stage).Ok? <==> Acyclic(StageEdges(entries, stage))
  {
    StageWithin(entries, stage);
    GreedyCompleteIffAcyclic(StageNodes(entries, stage), StageEdges(entries, stage));
  }

  lemma StageOrderLeast(entries: Entries, stage: Stage)
    requires CoherentEntries(entries) && StageOrder(entries, stage).Ok?
    ensures IsLeastTopological(StageNodes(entries, stage), StageEdges(entries, stage), Ids(StageOrder(entries, stage).value))
  {
    var nodes, arcs := StageNodes(entries, stage), StageEdges(entries, stage);
    var g := Greedy(nodes, arcs, {});
    StageWithin(entries, stage);
    GreedyTopological(nodes, arcs);
    forall u | IsTopological(nodes, arcs, u) ensures LexLe(g, u) {
      GreedyLeast(nodes, arcs, u);
    }
    var gates := StageOrder(entries, stage).value;
    forall i | 0 <= i < |g| ensures gates[i].id == g[i] {
      assert g[i] in Elems(g);
    }
    assert Ids(gates) == g;
  }

  /** Build succeeds exactly when every explicit dependency is registered and no stage has a cycle. */
  lemma BootSucceedsIff(entries: Entries, r: Result<Order>)
    requires BuildOutcome(entries, r)
    ensures r.Ok? <==> AllResolve(entries) && forall stage: Stage :: Acyclic(StageEdges(entries, stage))
  {
    StageSortsIffAcyclic(entries, PreRequest);
    StageSortsIffAcyclic(entries, OnResponseChunk);
    StageSortsIffAcyclic(entries, PostResponse);
    if AllResolve(entries) && r.Ok? {
      forall stage: Stage ensures Acyclic(StageEdges(entries, stage)) {
        match stage case PreRequest => case OnResponseChunk => case PostResponse =>
      }
    }
  }

  /** Each stage runs in the lexicographically least topological order of its dependency graph. */
  lemma BootOrdersLeast(entries: Entries, r: Result<Order>, stage: Stage)
    requires CoherentEntries(entries) && BuildOutcome(entries, r) && r.Ok?
    ensures IsLeastTopological(StageNodes(entries, stage), StageEdges(entries, stage), Ids(OrderOf(r.value, stage)))
  {
    StageOrderLeast(entries, stage);
  }

  /** ids lists the gates of the stage, each once. */
  ghost predicate Lists(entries: Entries, stage: Stage, ids: seq<string>) {
    NoDup(ids) && forall n :: n in ids <==> n in entries && stage in entries[n].gate.stages
  }

  /** Gate g must wait for gate w: it reads a field w writes, or names w. */
  ghost predicate Awaits(g: Declared, w: Declared, name: string) {
    (exists f: Field :: f in w.alters && f in g.observes) || name in g.after
  }

  /** Every gate stands behind all it must wait for. */
  ghost predicate InDeclaredOrder(entries: Entries, ids: seq<string>) {
    forall i, j | 0 <= i < |ids| && 0 <= j < |ids| && i != j && ids[i] in entries && ids[j] in entries
                  && Awaits(DeclaredOf(entries[ids[j]].gate), DeclaredOf(entries[ids[i]].gate), ids[i]) :: i < j
  }

  /** The dependency graph of a stage says what the gates declare, and nothing more. */
  lemma TopologicalIffDeclared(entries: Entries, stage: Stage, ids: seq<string>)
    requires CoherentEntries(entries)
    ensures IsTopological(StageNodes(entries, stage), StageEdges(entries, stage), ids)
       <==> Lists(entries, stage, ids) && InDeclaredOrder(entries, ids)
  {
    var nodes, arcs := StageNodes(entries, stage), StageEdges(entries, stage);
    assert forall n :: n in nodes <==> n in entries && stage in entries[n].gate.stages by {
      assert forall n | n in entries :: Coherent(n, entries[n].gate) && entries[n].declared == DeclaredOf(entries[n].gate);
    }
    assert (forall n :: n in ids <==> n in nodes) <==> Elems(ids) == nodes;
    if NoDup(ids) && Elems(ids) == nodes {
      forall i, j | 0 <= i < |ids| && 0 <= j < |ids|
        ensures (ids[i], ids[j]) in arcs
           <==> i != j && Awaits(DeclaredOf(entries[ids[j]].gate), DeclaredOf(entries[ids[i]].gate), ids[i])
      {
        assert ids[i] in Elems(ids) && ids[j] in Elems(ids);
        assert ids[i] == ids[j] <==> i == j;
      }
    }
  }

  /** The boot order of a stage in the words of the declarations: its gates, each behind all it must wait for, and first by
      name among all such orders. */
  lemma BootOrderIsDeclared(entries: Entries, r: Result<Order>, stage: Stage)
    requires CoherentEntries(entries) && BuildOutcome(entries, r) && r.Ok?
    ensures var ids := Ids(OrderOf(r.value, stage));
      && Lists(entries, stage, ids) && InDeclaredOrder(entries, ids)
      && forall t | Lists(entries, stage, t) && InDeclaredOrder(entries, t) :: LexLe(ids, t)
  {
    var ids := Ids(OrderOf(r.value, stage));
    BootOrdersLeast(entries, r, stage);
    TopologicalIffDeclared(entries, stage, ids);
    forall t | Lists(entries, stage, t) && InDeclaredOrder(entries, t) ensures LexLe(ids, t) {
      TopologicalIffDeclared(entries, stage, t);
    }
  }

  lemma StageOrderRegistered(entries: Entries, stage: Stage)
    requires CoherentEntries(entries) && StageOrder(entries, stage).Ok?
    ensures forall g | g in StageOrder(entries, stage).value :: g.id in entries && g == entries[g.id].gate
  {
    var ids := Greedy(StageNodes(entries, stage), StageEdges(entries, stage), {});
    SortSpecNodes(StageNodes(entries, stage), StageEdges(entries, stage));
    var gates := StageOrder(entries, stage).value;
    forall i | 0 <= i < |gates| ensures gates[i].id in entries && gates[i] == entries[gates[i].id].gate {
      assert ids[i] in Elems(ids);
    }
  }

  lemma BootOrdersRegistered(entries: Entries, r: Result<Order>, stage: Stage)
    requires CoherentEntries(entries) && BuildOutcome(entries, r) && r.Ok?
    ensures forall g | g in OrderOf(r.value, stage) :: g.id in entries && g == entries[g.id].gate
  {
    StageOrderRegistered(entries, stage);
  }

  /** A cycle error lists, in ascending order, exactly the gates on or downstream of a cycle of the
      first stage that has one. */
  lemma BootCycleReport(entries: Entries, r: Result<Order>) returns (stage: Stage)
    requires BuildOutcome(entries, r) && r.Err? && r.error.DependencyCycle?
    ensures !Acyclic(StageEdges(entries, stage))
    ensures r.error.names == Ascending(set x | x in StageNodes(entries, stage) && BehindCycle(StageEdges(entries, stage), x))
    ensures stage != PreRequest ==> Acyclic(StageEdges(entries, PreRequest))
    ensures stage == PostResponse ==> Acyclic(StageEdges(entries, OnResponseChunk))
  {
    StageSortsIffAcyclic(entries, PreRequest);
    StageSortsIffAcyclic(entries, OnResponseChunk);
    StageSortsIffAcyclic(entries, PostResponse);
    stage := if StageOrder(entries, PreRequest).Err? then PreRequest
             else if StageOrder(entries, OnResponseChunk).Err? then OnResponseChunk else PostResponse;
    StageWithin(entries, stage);
    LeftoverIsBehindCycle(StageNodes(entries, stage), StageEdges(entries, stage));
  }

  function After(name: string, deps: seq<string>): Entry {
    var d := Declared({PreRequest}, [], [], deps);
    Entry(Gate(name, {PreRequest}, FailOpen, Some(d)), d)
  }

  /** a and b wait for each other, and c only for b. */
  ghost predicate Bystanding(entries: Entries, a: string, b: string, c: string) {
    && a != b && b != c && a != c && entries.Keys == {a, b, c}
    && entries[a] == After(a, [b]) && entries[b] == After(b, [a]) && entries[c] == After(c, [b])
  }

  lemma BystandingGraph(entries: Entries, a: string, b: string, c: string)
    requires Bystanding(entries, a, b, c)
    ensures CoherentEntries(entries) && AllResolve(entries)
    ensures StageNodes(entries, PreRequest) == {a, b, c} && StageEdges(entries, PreRequest) == {(a, b), (b, a), (b, c)}
  {
    forall x, y | x in entries && y in entries
      ensures Depends(entries[y].declared, x, entries[x].declared) <==> (x, y) in {(a, b), (b, a), (b, c)}
    {
    }
  }

  /** A cycle error can name a gate that is on no cycle. */
  lemma ReportNamesBystander(entries: Entries, a: string, b: string, c: string, r: Result<Order>)
    requires Bystanding(entries, a, b, c) && BuildOutcome(entries, r)
    ensures r.Err? && r.error.DependencyCycle? && c in r.error.names
    ensures forall w | IsCycle(StageEdges(entries, PreRequest), w) :: c !in w
  {
    BystandingGraph(entries, a, b, c);
    LeftoverNamesBystander(a, b, c, StageEdges(entries, PreRequest));
    StageSortsIffAcyclic(entries, PreRequest);
    var stage := BootCycleReport(entries, r);
  }

  // --- registration order ---

  /** The entries after a boot that registers `rs` one by one, or None when one is refused. */
  ghost function RegisterAll(rs: seq<Registration>): Option<Entries> {
    if rs == [] then Some(map[])
    else
      var last := rs[|rs| - 1];
      match RegisterAll(rs[..|rs| - 1])
      case None => None
      case Some(before) =>
        if Sound(last) && last.name !in before then Some(before[last.name := EntryOf(last)]) else None
  }

  /** What one registration list amounts to, without its order. */
  ghost predicate Amounts(rs: seq<Registration>, entries: Entries) {
    && (forall r | r in rs :: Sound(r) && r.name in entries && entries[r.name] == EntryOf(r))
    && (forall n | n in entries :: exists r :: r in rs && r.name == n)
  }

  ghost predicate Acceptable(rs: seq<Registration>) {
    && (forall r | r in rs :: Sound(r))
    && (forall i, j :: 0 <= i < j < |rs| ==> rs[i].name != rs[j].name)
  }

  lemma AmountsStep(front: seq<Registration>, last: Registration, before: Entries)
    requires Amounts(front, before) && CoherentEntries(before)
    requires Sound(last) && last.name !in before
    ensures Amounts(front + [last], before[last.name := EntryOf(last)])
    ensures CoherentEntries(before[last.name := EntryOf(last)])
  {
    var after, rs := before[last.name := EntryOf(last)], front + [last];
    assert last in rs;
    forall n | n in after ensures exists r :: r in rs && r.name == n {
      if n != last.name {
        var r :| r in front && r.name == n;
        assert r in rs;
      }
    }
  }

  /** A list stays acceptable under one more registration exactly when that one is sound and new. */
  lemma AcceptableStep(front: seq<Registration>, last: Registration, before: Entries)
    requires Acceptable(front) ==> Amounts(front, before)
    ensures Acceptable(front + [last]) <==> Acceptable(front) && Sound(last) && last.name !in before
  {
    var rs := front + [last];
    assert forall i | 0 <= i < |front| :: rs[i] == front[i];
    assert last in rs && forall r | r in front :: r in rs;
    if Acceptable(front) {
      if last.name in before {
        var r :| r in front && r.name == last.name;
        var i :| 0 <= i < |front| && front[i] == r;
        assert rs[i].name == rs[|front|].name;
      } else {
        forall i | 0 <= i < |front| ensures front[i].name != last.name {
          assert front[i] in front;
        }
      }
    }
  }

  lemma {:induction false} RegisterAllMeaning(rs: seq<Registration>)
    ensures RegisterAll(rs).Some? <==> Acceptable(rs)
    ensures RegisterAll(rs).Some? ==> Amounts(rs, RegisterAll(rs).value) && CoherentEntries(RegisterAll(rs).value)
  {
    if rs != [] {
      var front, last := rs[..|rs| - 1], rs[|rs| - 1];
      RegisterAllMeaning(front);
      assert rs == front + [last];
      var before := if RegisterAll(front).Some? then RegisterAll(front).value else map[];
      AcceptableStep(front, last, before);
      if RegisterAll(rs).Some? {
        AmountsStep(front, last, before);
      }
    }
  }

  lemma AcceptablePermutes(rs: seq<Registration>, rs': seq<Registration>)
    requires multiset(rs) == multiset(rs') && Acceptable(rs)
    ensures Acceptable(rs')
  {
    forall r ensures r in rs' <==> r in rs {
      assert r in rs' <==> r in multiset(rs');
    }
    MultisetFacts(rs, rs');
    forall i, j | 0 <= i < j < |rs'| ensures rs'[i].name != rs'[j].name {
      assert rs'[i] in rs && rs'[j] in rs;
      var a :| 0 <= a < |rs| && rs[a] == rs'[i];
      var b :| 0 <= b < |rs| && rs[b] == rs'[j];
      assert a != b;
    }
  }

  lemma AmountsUnique(rs: seq<Registration>, rs': seq<Registration>, a: Entries, b: Entries)
    requires forall r :: r in rs <==> r in rs'
    requires Amounts(rs, a) && Amounts(rs', b)
    ensures a == b
  {
    forall n | n in a ensures n in b && a[n] == b[n] {
      var r :| r in rs && r.name == n;
    }
    forall n | n in b ensures n in a {
      var r :| r in rs' && r.name == n;
    }
  }

  /** Permuting the registrations changes neither whether the boot accepts them nor the entries it
      ends with, hence no order that Build computes from those entries. */
  lemma RegistrationOrderIrrelevant(rs: seq<Registration>, rs': seq<Registration>)
    requires multiset(rs) == multiset(rs')
    ensures RegisterAll(rs) == RegisterAll(rs')
  {
    RegisterAllMeaning(rs);
    RegisterAllMeaning(rs');
    if Acceptable(rs) { AcceptablePermutes(rs, rs'); }
    if Acceptable(rs') { AcceptablePermutes(rs', rs); }
    if RegisterAll(rs).Some? {
      forall r ensures r in rs <==> r in rs' {
        assert r in rs <==> r in multiset(rs);
        assert r in rs' <==> r in multiset(rs');
      }
      AmountsUnique(rs, rs', RegisterAll(rs).value, RegisterAll(rs').value);
    }
  }

  /** The outcome of Build is a function of the entries. */
  lemma BuildDeterministic(entries: Entries, r: Result<Order>, r': Result<Order>)
    requires BuildOutcome(entries, r) && BuildOutcome(entries, r')
    ensures r == r'
  {
    if !AllResolve(entries) {
      LeAntisymmetric(r.error.name, r'.error.name) by {
        Unresolved(entries, r.error.name, r.error.dep);
        Unresolved(entries, r'.error.name, r'.error.dep);
      }
    }
  }

  lemma Unresolved(entries: Entries, name: string, dep: string)
    requires FirstUnresolved(entries, name, dep)
    ensures !Resolves(entries, name)
  {
  }
}
