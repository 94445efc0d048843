/** The combo table (internal/store/combo_store.go): every operation is one step over the rows. Rows are keyed
    by name; validation searches from the combo's ID. */
module ComboStore {
  import opened ByteStrings
  import opened ComboGraph
  import opened ComboValidate

  datatype StoreError = NotFound | Duplicate(name: string) | Schema(name: string) | Conflict | Refused(error: RouteError)

  datatype Stored<+T> = Kept(value: T) | Failed(error: StoreError)

  // --- what one operation does to the rows ---

  datatype Op = Create(combo: Combo) | Update(combo: Combo) | Save(combo: Combo) | Delete(id: string)

  function WithID(c: Combo): Combo { if c.id == "" then c.(id := c.name) else c }

  function WithDefaults(c: Combo): Combo {
    WithID(if c.schemaVer == 0 then c.(schemaVer := CURRENT_SCHEMA) else c)
  }

  /** A scanned row has its key as ID and name. */
  function Persisted(c: Combo, depth: int): Combo { c.(id := c.name, depth := depth) }

  predicate Current(c: Combo) { c.schemaVer == CURRENT_SCHEMA }

  ghost predicate AllCurrent(rows: Graph) { forall k | k in rows :: Current(rows[k]) }

  /** The rows validation sees: on an update the combo's own ID is taken out. */
  function Existing(rows: Graph, c: Combo, update: bool): Graph {
    if update then rows - {c.id} else rows
  }

  ghost predicate Accepted(rows: Graph, c: Combo, update: bool, providers: Option<ProviderSet>, d: int) {
    && AllCurrent(rows)
    && Admissible(c, Existing(rows, c, update), providers)
    && RefsKnown(c, Existing(rows, c, update))
    && SoundFrom(Searched(c, Existing(rows, c, update)), c.id, d)
  }

  /** c is validated with depth d and then written under its name. */
  ghost predicate Writes(rows: Graph, c: Combo, insert: bool, providers: Option<ProviderSet>, d: int) {
    Accepted(rows, c, !insert, providers, d) && (insert <==> c.name !in rows)
  }

  /** The operation succeeds and puts the combo `Target(op)` with depth d. */
  ghost predicate Succeeds(rows: Graph, op: Op, providers: Option<ProviderSet>, d: int) {
    match op
    case Create(_) => Target(op).id !in rows && Writes(rows, Target(op), true, providers, d)
    case Update(_) =>
      Target(op).id in rows && Current(rows[Target(op).id]) && Writes(rows, Target(op), false, providers, d)
    case Save(_) =>
      (Target(op).id in rows ==> Current(rows[Target(op).id])) && Writes(rows, Target(op), Target(op).id !in rows, providers, d)
    case Delete(_) => false
  }

  function Target(op: Op): Combo
    requires !op.Delete?
  {
    match op case Update(c) => WithID(c) case _ => WithDefaults(op.combo)
  }

  ghost predicate OpStep(rows: Graph, op: Op, providers: Option<ProviderSet>, rows': Graph) {
    if op.Delete? then rows' == rows - {op.id}
    else if exists d :: Succeeds(rows, op, providers, d) then
      exists d :: Succeeds(rows, op, providers, d) && rows' == rows[Target(op).name := Persisted(Target(op), d)]
    else rows' == rows
  }

  class Store {
    var rows: Graph
    const providers: Option<ProviderSet>

    constructor (providers: Option<ProviderSet>)
      ensures rows == map[] && this.providers == providers
    {
      this.providers := providers;
      rows := map[];
    }

    method Get(id: string) returns (r: Stored<Combo>)
      ensures r.Kept? <==> id in rows && Current(rows[id])
      ensures r.Failed? && r.error.NotFound? <==> id !in rows
      ensures r.Kept? ==> r.value == rows[id]
    {
      if id !in rows { return Failed(NotFound); }
      if rows[id].schemaVer != CURRENT_SCHEMA { return Failed(Schema(id)); }
      return Kept(rows[id]);
    }

    /** Reading all rows fails when one of them has another schema version. */
    method LoadAll() returns (r: Stored<Graph>)
      ensures r.Kept? <==> AllCurrent(rows)
      ensures r.Kept? ==> r.value == rows
    {
      var todo := rows.Keys;
      while todo != {}
        invariant todo <= rows.Keys && forall k | k in rows && k !in todo :: Current(rows[k])
      {
        var k :| k in todo;
        if rows[k].schemaVer != CURRENT_SCHEMA { return Failed(Schema(k)); }
        todo := todo - {k};
      }
      return Kept(rows);
    }

    method Validate(c: Combo, update: bool) returns (r: Stored<int>)
      ensures r.Kept? ==> Accepted(rows, c, update, providers, r.value)
      ensures r.Failed? ==> forall d :: !Accepted(rows, c, update, providers, d)
    {
      var all := LoadAll();
      if all.Failed? { return Failed(all.error); }
      var existing := all.value;
      if update { existing := existing - {c.id}; }
      var depth := ValidateGraph(c, existing, providers);
      if depth.Err? { return Failed(Refused(depth.error)); }
      return Kept(depth.value);
    }

    method Write(c: Combo, depth: int, insert: bool) returns (e: Option<StoreError>)
      modifies this
      ensures e.None? <==> (insert <==> c.name !in old(rows))
      ensures rows == if e.None? then old(rows)[c.name := Persisted(c, depth)] else old(rows)
    {
      if insert && c.name in rows { return Some(Conflict); }
      if !insert && c.name !in rows { return Some(NotFound); }
      rows := rows[c.name := Persisted(c, depth)];
      return None;
    }

    method DoCreate(combo: Combo) returns (e: Option<StoreError>)
      modifies this
      ensures OpStep(old(rows), Create(combo), providers, rows)
      ensures e.None? <==> exists d :: Succeeds(old(rows), Create(combo), providers, d)
    {
      var c := if combo.schemaVer == 0 then combo.(schemaVer := CURRENT_SCHEMA) else combo;
      if c.id == "" { c := c.(id := c.name); }
      var found := Get(c.id);
      if found.Kept? { return Some(Duplicate(c.name)); }
      if !found.error.NotFound? { return Some(found.error); }
      var depth := Validate(c, false);
      if depth.Failed? { return Some(depth.error); }
      ghost var was := rows;
      e := Write(c, depth.value, true);
      assert e.None? ==> Succeeds(was, Create(combo), providers, depth.value);
    }

    method DoUpdate(combo: Combo) returns (e: Option<StoreError>)
      modifies this
      ensures OpStep(old(rows), Update(combo), providers, rows)
      ensures e.None? <==> exists d :: Succeeds(old(rows), Update(combo), providers, d)
    {
      var c := combo;
      if c.id == "" { c := c.(id := c.name); }
      var found := Get(c.id);
      if found.Failed? { return Some(found.error); }
      var depth := Validate(c, true);
      if depth.Failed? { return Some(depth.error); }
      ghost var was := rows;
      e := Write(c, depth.value, false);
      assert e.None? ==> Succeeds(was, Update(combo), providers, depth.value);
    }

    /** Returns the combo with the depth that was stored. */
    method DoSave(combo: Combo) returns (r: Stored<Combo>)
      modifies this
      ensures OpStep(old(rows), Save(combo), providers, rows)
      ensures r.Kept? <==> exists d :: Succeeds(old(rows), Save(combo), providers, d)
      ensures r.Kept? ==> r.value.name in rows && rows[r.value.name] == Persisted(r.value, r.value.depth)
    {
      var c := if combo.schemaVer == 0 then combo.(schemaVer := CURRENT_SCHEMA) else combo;
      if c.id == "" { c := c.(id := c.name); }
      var found := Get(c.id);
      var insert := found.Failed? && found.error.NotFound?;
      if !insert && found.Failed? { return Failed(found.error); }
      var depth := Validate(c, !insert);
      if depth.Failed? { return Failed(depth.error); }
      ghost var was := rows;
      var e := Write(c, depth.value, insert);
      if e.Some? { return Failed(e.value); }
      assert Succeeds(was, Save(combo), providers, depth.value);
      return Kept(c.(depth := depth.value));
    }

    method DoDelete(id: string) returns (e: Option<StoreError>)
      modifies this
      ensures OpStep(old(rows), Delete(id), providers, rows)
      ensures e.None? <==> id in old(rows)
    {
      e := if id in rows then None else Some(NotFound);
      rows := rows - {id};
    }
  }

  // --- one write and the cycles of the whole graph ---

  ghost predicate Reaches(g: Graph, a: string, b: string) {
    exists p :: PathFrom(g, a, p) && p[|p| - 1] == b
  }

  /** A path that never leaves from n is the same path in both graphs. */
  lemma PathElsewhere(g: Graph, h: Graph, n: string, p: seq<string>)
    requires forall k | k != n :: (k in g <==> k in h) && (k in g ==> g[k].steps == h[k].steps)
    requires forall i | 0 <= i < |p| - 1 :: p[i] != n
    ensures Path(g, p) <==> Path(h, p)
  {
    forall a, b | a != n ensures Edge(g, a, b) <==> Edge(h, a, b) {
    }
  }

  /** The part of a path up to its first visit of n. */
  lemma {:induction false} UntilFirst(g: Graph, p: seq<string>, n: string) returns (q: seq<string>)
    requires Path(g, p) && p[|p| - 1] == n
    ensures PathFrom(g, p[0], q) && q[|q| - 1] == n && forall i | 0 <= i < |q| - 1 :: q[i] != n
    decreases |p|
  {
    if k :| 0 <= k < |p| - 1 && p[k] == n {
      PathSlices(g, p, k);
      q := UntilFirst(g, p[..k + 1], n);
    } else {
      q := p;
    }
  }

  /** Two visits of one combo on a path of the new graph give a way from n's references back to n, unless the
      old graph had that cycle already. */
  lemma RepeatGoesThrough(g: Graph, h: Graph, c: Combo, p: seq<string>, i: nat, j: nat)
    requires h == g[c.name := c] && Acyclic(g)
    requires Path(h, p) && i < j < |p| && p[i] == p[j]
    ensures exists r :: RefersTo(c, r) && Reaches(g, r, c.name)
  {
    var n := c.name;
    PathSlices(h, p, j);
    var loop := p[..j + 1][i..];
    PathSlices(h, p[..j + 1], i);
    var last := |loop| - 1;
    assert loop[0] == loop[last];
    var k := LoopMeets(g, h, n, loop);
    PathSlices(h, loop, k);
    PathJoin(h, loop[k..], loop[..k + 1]);
    var round := loop[k..] + loop[..k + 1][1..];
    assert round[|round| - 1] == n;
    PathTail(h, round);
    var q := UntilFirst(h, round[1..], n);
    PathElsewhere(g, h, n, q);
    assert Reaches(g, round[1], n);
  }

  /** A closed path of the new graph passes the written combo: elsewhere the old, acyclic graph is unchanged. */
  lemma LoopMeets(g: Graph, h: Graph, n: string, loop: seq<string>) returns (k: nat)
    requires forall k | k != n :: (k in g <==> k in h) && (k in g ==> g[k].steps == h[k].steps)
    requires Acyclic(g) && Path(h, loop) && |loop| >= 2 && loop[0] == loop[|loop| - 1]
    ensures k < |loop| - 1 && loop[k] == n
  {
    if forall i | 0 <= i < |loop| - 1 :: loop[i] != n { PathElsewhere(g, h, n, loop); }
    k :| k < |loop| - 1 && loop[k] == n;
  }

  /** Writing c keeps an acyclic graph acyclic exactly when none of c's references leads, in the graph before
      the write, to the name it is written under. */
  lemma WriteKeepsAcyclicIff(g: Graph, c: Combo)
    requires Acyclic(g)
    ensures Acyclic(g[c.name := c]) <==> forall r | RefersTo(c, r) :: !Reaches(g, r, c.name)
  {
    var h := g[c.name := c];
    forall r | RefersTo(c, r) && Reaches(g, r, c.name) ensures !Acyclic(h) {
      ReferenceClosesCycle(g, c, r);
    }
    if forall r | RefersTo(c, r) :: !Reaches(g, r, c.name) {
      forall p | Path(h, p) ensures NoDup(p) {
        forall i, j | 0 <= i < j < |p| ensures p[i] != p[j] {
          if p[i] == p[j] { RepeatGoesThrough(g, h, c, p, i, j); }
        }
      }
    }
  }

  lemma ReferenceClosesCycle(g: Graph, c: Combo, r: string)
    requires RefersTo(c, r) && Reaches(g, r, c.name)
    ensures exists p :: PathFrom(g[c.name := c], c.name, p) && !NoDup(p)
  {
    var h := g[c.name := c];
    var p :| PathFrom(g, r, p) && p[|p| - 1] == c.name;
    var q := UntilFirst(g, p, c.name);
    PathElsewhere(g, h, c.name, q);
    PathPrepend(h, c.name, q);
    var w := [c.name] + q;
    assert w[0] == w[|w| - 1];
    assert PathFrom(h, c.name, w) && !NoDup(w);
  }

  lemma SameStepsAcyclic(g: Graph, h: Graph)
    requires SameSteps(g, h) && Acyclic(g)
    ensures Acyclic(h)
  {
    forall p | Path(h, p) ensures NoDup(p) { SameStepsSamePaths(g, h, p); }
  }

  /** A validated write under the combo's own name keeps the stored graph acyclic, although the search only
      starts at that combo. */
  lemma OwnNameWriteAcyclic(rows: Graph, c: Combo, insert: bool, providers: Option<ProviderSet>, d: int)
    requires Acyclic(rows) && Writes(rows, c, insert, providers, d) && c.id == c.name
    ensures Acyclic(rows[c.name := Persisted(c, d)])
  {
    var h := rows[c.name := c];
    assert Searched(c, Existing(rows, c, !insert)) == h;
    forall r | RefersTo(c, r) ensures !Reaches(rows, r, c.name) {
      if Reaches(rows, r, c.name) { ReferenceClosesCycle(rows, c, r); }
    }
    WriteKeepsAcyclicIff(rows, c);
    SameStepsAcyclic(h, rows[c.name := Persisted(c, d)]);
  }

  lemma DeleteAcyclic(rows: Graph, id: string)
    requires Acyclic(rows)
    ensures Acyclic(rows - {id})
  {
    var h := rows - {id};
    forall p | Path(h, p) ensures NoDup(p) {
      forall i | 0 <= i < |p| - 1 ensures Edge(rows, p[i], p[i + 1]) {
        assert Edge(h, p[i], p[i + 1]);
      }
      assert Path(rows, p);
    }
  }

  // --- whole runs ---

  /** The caller leaves the ID empty or equal to the name. */
  predicate OwnName(op: Op) { op.Delete? || op.combo.id == "" || op.combo.id == op.combo.name }

  ghost predicate Run(states: seq<Graph>, ops: seq<Op>, providers: Option<ProviderSet>) {
    && |states| == |ops| + 1 && states[0] == map[]
    && forall i | 0 <= i < |ops| :: OpStep(states[i], ops[i], providers, states[i + 1])
  }

  /** The operation succeeds and closes a cycle: a reference of what it writes leads back to the name written. */
  ghost predicate Closes(rows: Graph, op: Op, providers: Option<ProviderSet>) {
    && (exists d :: Succeeds(rows, op, providers, d))
    && exists r :: RefersTo(Target(op), r) && Reaches(rows, r, Target(op).name)
  }

  lemma PersistedAcyclicIff(rows: Graph, c: Combo, d: int)
    requires Acyclic(rows)
    ensures Acyclic(rows[c.name := Persisted(c, d)]) <==> forall r | RefersTo(c, r) :: !Reaches(rows, r, c.name)
  {
    var g, h := rows[c.name := c], rows[c.name := Persisted(c, d)];
    WriteKeepsAcyclicIff(rows, c);
    if Acyclic(g) { SameStepsAcyclic(g, h); }
    if Acyclic(h) { SameStepsAcyclic(h, g); }
  }

  lemma Written(rows: Graph, op: Op, providers: Option<ProviderSet>, rows': Graph) returns (d: int)
    requires OpStep(rows, op, providers, rows') && !op.Delete? && exists d :: Succeeds(rows, op, providers, d)
    ensures Succeeds(rows, op, providers, d) && rows' == rows[Target(op).name := Persisted(Target(op), d)]
  {
    d :| Succeeds(rows, op, providers, d) && rows' == rows[Target(op).name := Persisted(Target(op), d)];
  }

  /** Whatever IDs and names the caller gives, one operation keeps the stored graph acyclic exactly unless it closes a
      cycle. */
  lemma StepKeepsAcyclicIff(rows: Graph, op: Op, providers: Option<ProviderSet>, rows': Graph)
    requires Acyclic(rows) && OpStep(rows, op, providers, rows')
    ensures Acyclic(rows') <==> !Closes(rows, op, providers)
  {
    if op.Delete? {
      DeleteAcyclic(rows, op.id);
    } else if exists d :: Succeeds(rows, op, providers, d) {
      var d := Written(rows, op, providers, rows');
      PersistedAcyclicIff(rows, Target(op), d);
    }
  }

  lemma EmptyAcyclic()
    ensures Acyclic(map[])
  {
    forall p | Path(map[], p) ensures NoDup(p) {
      assert |p| >= 2 ==> Edge(map[], p[0], p[1]);
    }
  }

  /** In every run the stored graph stays acyclic up to any point if and only if no operation before it closes a cycle. */
  lemma {:induction false} RunsAcyclicIff(states: seq<Graph>, ops: seq<Op>, providers: Option<ProviderSet>, k: nat)
    requires Run(states, ops, providers) && k <= |ops|
    ensures (forall i | 0 <= i <= k :: Acyclic(states[i])) <==> forall i | 0 <= i < k :: !Closes(states[i], ops[i], providers)
  {
    EmptyAcyclic();
    if k > 0 {
      RunsAcyclicIff(states, ops, providers, k - 1);
      if Acyclic(states[k - 1]) { StepKeepsAcyclicIff(states[k - 1], ops[k - 1], providers, states[k]); }
    }
  }

  lemma StepKeepsAcyclic(rows: Graph, op: Op, providers: Option<ProviderSet>, rows': Graph)
    requires Acyclic(rows) && OpStep(rows, op, providers, rows') && OwnName(op)
    ensures Acyclic(rows')
  {
    if op.Delete? {
      DeleteAcyclic(rows, op.id);
    } else if exists d :: Succeeds(rows, op, providers, d) {
      var d := Written(rows, op, providers, rows');
      var insert := op.Create? || (op.Save? && Target(op).id !in rows);
      OwnNameWriteAcyclic(rows, Target(op), insert, providers, d);
    }
  }

  /** From the empty store, no sequence of operations under own names ever stores a reference cycle. */
  lemma {:induction false} RunsStayAcyclic(states: seq<Graph>, ops: seq<Op>, providers: Option<ProviderSet>)
    requires Run(states, ops, providers) && forall op | op in ops :: OwnName(op)
    ensures Acyclic(states[|ops|])
    decreases |ops|
  {
    if ops == [] {
      EmptyAcyclic();
    } else {
      var n := |ops| - 1;
      RunsStayAcyclic(states[..n + 1], ops[..n], providers);
      StepKeepsAcyclic(states[n], ops[n], providers, states[n + 1]);
    }
  }

  // --- writes under a name that is not the ID ---

  function Leaf(n: string): Combo {
    Combo(n, n, Priority, [Step(StepModel, "m", 0, [], false)], CURRENT_SCHEMA, 0)
  }

  function RefTo(id: string, name: string, target: string, depth: int): Combo {
    Combo(id, name, Priority, [Step(StepComboRef, target, 0, [], false)], CURRENT_SCHEMA, depth)
  }

  lemma LeafSound(g: Graph, id: string)
    requires id in g && forall r :: !RefersTo(g[id], r)
    ensures SoundFrom(g, id, 0)
  {
    LongestFromChildren(g, id, 0);
    BoundedIsAcyclic(g, id, 0);
  }

  lemma ChainSound(g: Graph, id: string, r: string, d: nat)
    requires id in g && RefersTo(g[id], r) && (forall x | RefersTo(g[id], x) :: x == r)
    requires SoundFrom(g, r, d) && d < MAX_DEPTH
    ensures SoundFrom(g, id, d + 1)
  {
    assert Edge(g, id, r);
    LongestFromChildren(g, id, d + 1);
    BoundedIsAcyclic(g, id, d + 1);
  }

  lemma CreateLeaf(rows: Graph, n: string)
    requires AllCurrent(rows) && n !in rows && ValidName(n)
    ensures OpStep(rows, Create(Leaf(n)), None, rows[n := Leaf(n)])
  {
    LeafSound(rows[n := Leaf(n)], n);
    assert Succeeds(rows, Create(Leaf(n)), None, 0);
    OnlyDepth(rows, Create(Leaf(n)), 0);
  }

  lemma OnlyDepth(rows: Graph, op: Op, d: int)
    requires Succeeds(rows, op, None, d)
    ensures OpStep(rows, op, None, rows[Target(op).name := Persisted(Target(op), d)])
  {
  }

  /** Creating a combo that refers to a stored leaf. */
  lemma CreateRef(rows: Graph, n: string, target: string)
    requires AllCurrent(rows) && n !in rows && ValidName(n) && ValidName(target) && target in rows && rows[target] == Leaf(target)
    ensures OpStep(rows, Create(RefTo(n, n, target, 0)), None, rows[n := RefTo(n, n, target, 1)])
  {
    var c := RefTo(n, n, target, 0);
    SingleRef(c, target);
    LeafSound(rows[n := c], target);
    ChainSound(rows[n := c], n, target, 0);
    assert Succeeds(rows, Create(c), None, 1);
    OnlyDepth(rows, Create(c), 1);
  }

  /** An update that is validated at row "y" but written to row "b", which "a" refers to. */
  lemma UpdateElsewhere(rows: Graph)
    requires AllCurrent(rows) && rows.Keys == {"a", "b", "y"}
    requires rows["b"] == Leaf("b") && rows["y"] == Leaf("y") && rows["a"] == RefTo("a", "a", "b", 1)
    ensures OpStep(rows, Update(RefTo("y", "b", "a", 0)), None, rows["b" := RefTo("b", "b", "a", 2)])
  {
    var c := RefTo("y", "b", "a", 0);
    var g := Searched(c, Existing(rows, c, true));
    SingleRef(c, "a");
    SingleRef(rows["a"], "b");
    LeafSound(g, "b");
    ChainSound(g, "a", "b", 0);
    ChainSound(g, "y", "a", 1);
    assert Succeeds(rows, Update(c), None, 2);
    OnlyDepth(rows, Update(c), 2);
  }

  lemma MutualReference(g: Graph)
    requires "a" in g && "b" in g && RefersTo(g["a"], "b") && RefersTo(g["b"], "a")
    ensures !Acyclic(g)
  {
    var loop := ["a", "b", "a"];
    assert Path(g, loop);
    assert loop[0] == loop[2];
  }

  lemma Extend(states: seq<Graph>, ops: seq<Op>, op: Op, next: Graph)
    requires Run(states, ops, None) && OpStep(states[|ops|], op, None, next)
    ensures Run(states + [next], ops + [op], None)
  {
  }

  lemma TwoLeaves() returns (states: seq<Graph>, ops: seq<Op>)
    ensures Run(states, ops, None) && |ops| == 2 && states[2] == map["b" := Leaf("b"), "y" := Leaf("y")]
    ensures OwnName(ops[0]) && OwnName(ops[1])
  {
    var s1: Graph := map["b" := Leaf("b")];
    CreateLeaf(map[], "b");
    Extend([map[]], [], Create(Leaf("b")), s1);
    CreateLeaf(s1, "y");
    Extend([map[], s1], [Create(Leaf("b"))], Create(Leaf("y")), s1["y" := Leaf("y")]);
    states, ops := [map[], s1] + [s1["y" := Leaf("y")]], [Create(Leaf("b"))] + [Create(Leaf("y"))];
  }

  lemma ThreeCreates(rows: Graph) returns (states: seq<Graph>, ops: seq<Op>)
    requires rows == map["b" := Leaf("b"), "y" := Leaf("y"), "a" := RefTo("a", "a", "b", 1)]
    ensures Run(states, ops, None) && |ops| == 3 && states[3] == rows
    ensures forall i | 0 <= i < 3 :: OwnName(ops[i])
  {
    states, ops := TwoLeaves();
    var a := Create(RefTo("a", "a", "b", 0));
    CreateRef(states[2], "a", "b");
    assert rows == states[2]["a" := RefTo("a", "a", "b", 1)];
    Extend(states, ops, a, rows);
    states, ops := states + [rows], ops + [a];
  }

  /** With an ID that differs from the name, validation searches from the ID's place while the write lands on
      another row: four accepted operations store the cycle a -> b -> a. */
  lemma ForeignNameStoresCycle() returns (states: seq<Graph>, ops: seq<Op>)
    ensures Run(states, ops, None) && !Acyclic(states[|ops|])
    ensures |ops| == 4 && forall i | 0 <= i < 3 :: OwnName(ops[i])
  {
    var rows := map["b" := Leaf("b"), "y" := Leaf("y"), "a" := RefTo("a", "a", "b", 1)];
    var last := rows["b" := RefTo("b", "b", "a", 2)];
    states, ops := ThreeCreates(rows);
    UpdateElsewhere(rows);
    Extend(states, ops, Update(RefTo("y", "b", "a", 0)), last);
    states, ops := states + [last], ops + [Update(RefTo("y", "b", "a", 0))];
    SingleRef(last["a"], "b");
    SingleRef(last["b"], "a");
    MutualReference(last);
  }

  lemma SingleRef(c: Combo, r: string)
    requires |c.steps| == 1 && c.steps[0] == Step(StepComboRef, r, 0, [], false)
    ensures RefersTo(c, r) && forall x | RefersTo(c, x) :: x == r
  {
    assert IsRef(c.steps[0]);
  }
}
