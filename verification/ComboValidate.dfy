/** Save-time validation of a combo (internal/combos/validate.go): its shape, its targets, and the
    three-colour depth-first search over the reference graph. */
module ComboValidate {
  import opened ByteStrings
  import opened ComboGraph

  datatype Reason = BadName | BadStrategy | NoSteps | BadKind(index: nat) | EmptyRef(index: nat) | UnknownRef(ref: string)

  datatype RouteError =
    | InvalidCombo(name: string, reason: Reason)
    | CyclicCombo(name: string)
    | DepthExceeded(name: string)
    | FanoutExceeded(name: string)
    | UnknownProvider(name: string, provider: string)
    | UnknownModel(name: string, model: string)

  datatype Result<+T> = Ok(value: T) | Err(error: RouteError)

  datatype Option<+T> = None | Some(value: T)

  /** The provider allowlist; None opts out of the check. */
  datatype ProviderSet = ProviderSet(has: string -> bool, declaresModel: string -> bool)

  predicate NameChar(c: char) {
    'a' <= c <= 'z' || 'A' <= c <= 'Z' || '0' <= c <= '9' || c in {'_', '.', '-'}
  }

  predicate ValidName(name: string) { name != "" && forall c | c in name :: NameChar(c) }

  // --- shape ---

  predicate StepShaped(s: Step) { !s.kind.UnknownKind? && s.ref != "" }

  predicate Shaped(c: Combo) {
    && ValidName(c.name) && !c.strategy.UnknownStrategy?
    && c.steps != [] && forall s | s in c.steps :: StepShaped(s)
  }

  method CheckShape(c: Combo) returns (e: Option<RouteError>)
    ensures e.None? <==> Shaped(c)
    ensures e.Some? ==> e.value.InvalidCombo? && !e.value.reason.UnknownRef?
  {
    if !ValidName(c.name) { return Some(InvalidCombo(c.name, BadName)); }
    if c.strategy.UnknownStrategy? { return Some(InvalidCombo(c.name, BadStrategy)); }
    if c.steps == [] { return Some(InvalidCombo(c.name, NoSteps)); }
    for i := 0 to |c.steps|
      invariant forall j | 0 <= j < i :: StepShaped(c.steps[j])
    {
      assert c.steps[i] in c.steps;
      if c.steps[i].kind.UnknownKind? { return Some(InvalidCombo(c.name, BadKind(i))); }
      if c.steps[i].ref == "" { return Some(InvalidCombo(c.name, EmptyRef(i))); }
    }
    return None;
  }

  // --- targets ---

  predicate TargetAllowed(s: Step, providers: Option<ProviderSet>) {
    match providers
    case None => true
    case Some(ps) =>
      (s.kind.StepProviderWildcard? ==> ps.has(s.ref)) && (s.kind.StepModel? ==> ps.declaresModel(s.ref))
  }

  method CheckTargets(c: Combo, providers: Option<ProviderSet>) returns (e: Option<RouteError>)
    ensures e.None? <==> forall s | s in c.steps :: TargetAllowed(s, providers)
    ensures e.Some? ==> e.value.UnknownProvider? || e.value.UnknownModel?
  {
    if providers.None? { return None; }
    for i := 0 to |c.steps|
      invariant forall j | 0 <= j < i :: TargetAllowed(c.steps[j], providers)
    {
      var s := c.steps[i];
      assert s in c.steps;
      match s.kind {
        case StepProviderWildcard =>
          if !providers.value.has(s.ref) { return Some(UnknownProvider(c.name, s.ref)); }
        case StepModel =>
          if !providers.value.declaresModel(s.ref) { return Some(UnknownModel(c.name, s.ref)); }
        case _ =>
      }
    }
    return None;
  }

  /** No step refers to the combo's own name, and every referenced combo exists. */
  predicate RefsKnown(c: Combo, existing: Graph) {
    forall s | s in c.steps && IsRef(s) :: s.ref != c.name && s.ref in existing
  }

  method CheckRefs(c: Combo, existing: Graph) returns (e: Option<RouteError>)
    ensures e.None? <==> RefsKnown(c, existing)
    ensures e.Some? ==> e.value == CyclicCombo(c.name) || (e.value.InvalidCombo? && e.value.reason.UnknownRef?)
    ensures e.Some? && e.value.CyclicCombo? ==> RefersTo(c, c.name)
  {
    for i := 0 to |c.steps|
      invariant forall j | 0 <= j < i && IsRef(c.steps[j]) :: c.steps[j].ref != c.name && c.steps[j].ref in existing
    {
      var s := c.steps[i];
      if !IsRef(s) { continue; }
      if s.ref == c.name { return Some(CyclicCombo(c.name)); }
      if s.ref !in existing { return Some(InvalidCombo(c.name, UnknownRef(s.ref))); }
    }
    return None;
  }

  predicate FanoutLegal(c: Combo) { c.strategy.Fusion? ==> |c.steps| <= MAX_FANOUT }

  // --- depth-first search ---

  datatype Color = Grey | Black

  ghost predicate HasRepeat(g: Graph, root: string) {
    exists p :: PathFrom(g, root, p) && !NoDup(p)
  }

  ghost predicate Dangles(g: Graph, root: string) {
    exists p :: PathFrom(g, root, p) && p[|p| - 1] !in g
  }

  /** Steps never change, and a black node's stored depth is its longest reference path. */
  ghost predicate Sane(base: Graph, graph: Graph, state: map<string, Color>) {
    && SameSteps(graph, base)
    && state.Keys <= base.Keys
    && forall id | id in state && state[id] == Black :: DoneAt(base, id, graph[id].depth)
  }

  ghost predicate DoneAt(base: Graph, id: string, d: int) {
    d >= 0 && Longest(base, id, d) && Resolves(base, id)
  }

  /** The grey nodes are those on the stack. */
  ghost predicate Stacked(state: map<string, Color>, stack: seq<string>) {
    forall id :: id in stack <==> id in state && state[id] == Grey
  }

  /** What the search keeps: colours once given (grey ones while on the stack) and the depths of black nodes. */
  ghost predicate Advance(g0: Graph, s0: map<string, Color>, g1: Graph, s1: map<string, Color>) {
    && (forall id | id in s0 :: id in s1 && s1[id] == s0[id])
    && (forall id | id in s0 && s0[id] == Black && id in g0 && id in g1 :: g1[id].depth == g0[id].depth)
  }

  lemma AdvanceTrans(base: Graph, g0: Graph, s0: map<string, Color>, g1: Graph, s1: map<string, Color>, g2: Graph, s2: map<string, Color>)
    requires SameSteps(g0, base) && SameSteps(g1, base) && SameSteps(g2, base)
    requires Advance(g0, s0, g1, s1) && Advance(g1, s1, g2, s2)
    ensures Advance(g0, s0, g2, s2)
  {
  }

  lemma EnterSane(base: Graph, graph: Graph, state: map<string, Color>, id: string)
    requires Sane(base, graph, state) && id in base && id !in state
    ensures Sane(base, graph, state[id := Grey])
  {
  }

  lemma EnterStack(state: map<string, Color>, stack: seq<string>, id: string)
    requires Stacked(state, stack) && id !in state
    ensures Stacked(state[id := Grey], stack + [id])
  {
    forall x ensures x in stack + [id] <==> x in state[id := Grey] && state[id := Grey][x] == Grey {
      assert x in stack + [id] <==> x in stack || x == id;
    }
  }

  lemma FewerWhite(all: set<string>, state: map<string, Color>, id: string)
    requires id in all && id !in state
    ensures |all - state[id := Grey].Keys| < |all - state.Keys|
  {
    assert all - state.Keys == (all - state[id := Grey].Keys) + {id};
  }

  lemma LeaveSane(base: Graph, graph: Graph, state: map<string, Color>, id: string, node: Combo, d: int)
    requires Sane(base, graph, state) && id in base && node.steps == base[id].steps && DoneAt(base, id, d)
    ensures Sane(base, graph[id := node.(depth := d)], state[id := Black])
  {
  }

  lemma LeaveStack(state: map<string, Color>, stack: seq<string>, id: string)
    requires Stacked(state, stack + [id]) && id !in stack
    ensures Stacked(state[id := Black], stack)
  {
    forall x ensures x in stack <==> x in state[id := Black] && state[id := Black][x] == Grey {
      assert x in stack + [id] <==> x in stack || x == id;
    }
  }

  lemma LeaveAdvance(g0: Graph, s0: map<string, Color>, graph: Graph, state: map<string, Color>, id: string, node: Combo)
    requires id !in s0 && Advance(g0, s0[id := Grey], graph, state)
    ensures Advance(g0, s0, graph[id := node], state[id := Black])
  {
    forall x | x in s0 ensures x in state && state[x] == s0[x] {
      assert x in s0[id := Grey];
    }
  }

  /** The depth of a step's reference, or -1 when it is none. */
  ghost predicate ChildDepth(base: Graph, s: Step, c: int) {
    if IsRef(s) then DoneAt(base, s.ref, c) else c == -1
  }

  ghost predicate ChildDepths(base: Graph, steps: seq<Step>, cs: seq<int>) {
    |cs| <= |steps| && forall j :: 0 <= j < |cs| ==> ChildDepth(base, steps[j], cs[j])
  }

  /** The largest child depth plus one, 0 without references. */
  ghost function Deepest(cs: seq<int>): int {
    if cs == [] then 0
    else
      var d, c := Deepest(cs[..|cs| - 1]), cs[|cs| - 1];
      if c + 1 > d then c + 1 else d
  }

  lemma {:induction false} DeepestBounds(cs: seq<int>)
    ensures Deepest(cs) >= 0 && forall j | 0 <= j < |cs| :: cs[j] + 1 <= Deepest(cs)
    ensures Deepest(cs) > 0 ==> exists j :: 0 <= j < |cs| && cs[j] + 1 == Deepest(cs)
  {
    if cs != [] {
      var n := |cs| - 1;
      DeepestBounds(cs[..n]);
      forall j | 0 <= j < |cs| ensures cs[j] + 1 <= Deepest(cs) {
        assert j < n ==> cs[..n][j] + 1 <= Deepest(cs[..n]);
      }
    }
  }

  lemma NextChild(base: Graph, steps: seq<Step>, cs: seq<int>, c: int)
    requires ChildDepths(base, steps, cs) && |cs| < |steps| && ChildDepth(base, steps[|cs|], c)
    ensures ChildDepths(base, steps, cs + [c])
    ensures Deepest(cs + [c]) == if c + 1 > Deepest(cs) then c + 1 else Deepest(cs)
  {
    assert (cs + [c])[..|cs|] == cs;
  }

  /** A node whose references are all measured is itself. */
  lemma MeasuredAll(base: Graph, id: string, cs: seq<int>)
    requires id in base && ChildDepths(base, base[id].steps, cs) && |cs| == |base[id].steps|
    ensures DoneAt(base, id, Deepest(cs))
  {
    var steps, d := base[id].steps, Deepest(cs);
    DeepestBounds(cs);
    forall r | Edge(base, id, r) ensures DepthAtMost(base, r, d - 1) && Resolves(base, r) {
      var j :| 0 <= j < |steps| && IsRef(steps[j]) && steps[j].ref == r;
      assert ChildDepth(base, steps[j], cs[j]);
    }
    if d > 0 {
      var j :| 0 <= j < |cs| && cs[j] + 1 == d;
      assert ChildDepth(base, steps[j], cs[j]);
      assert IsRef(steps[j]) ==> Edge(base, id, steps[j].ref);
    }
    LongestFromChildren(base, id, d);
  }

  lemma PathExtend(g: Graph, p: seq<string>, r: string)
    requires Path(g, p) && Edge(g, p[|p| - 1], r)
    ensures Path(g, p + [r])
  {
    assert Path(g, [p[|p| - 1], r]);
    PathJoin(g, p, [p[|p| - 1], r]);
    assert [p[|p| - 1], r][1..] == [r];
  }

  /** What a search result means for the paths from `root`. */
  ghost predicate Verdict(base: Graph, root: string, id: string, r: Result<int>) {
    match r
    case Ok(d) => DoneAt(base, id, d)
    case Err(CyclicCombo(_)) => HasRepeat(base, root)
    case Err(InvalidCombo(_, UnknownRef(_))) => Dangles(base, root)
    case Err(_) => false
  }

  /** The search: `graph` carries memoised depths, `state` the colours (white is absent). */
  class DepthSearch {
    var graph: Graph
    var state: map<string, Color>
    ghost const base: Graph

    constructor (g: Graph)
      ensures graph == base == g && state == map[]
    {
      graph, base, state := g, g, map[];
    }

    method DepthOf(id: string, ghost stack: seq<string>) returns (r: Result<int>)
      requires Sane(base, graph, state) && Stacked(state, stack) && Path(base, stack + [id])
      modifies this
      ensures Verdict(base, (stack + [id])[0], id, r)
      ensures r.Ok? ==> Sane(base, graph, state) && Stacked(state, stack)
                        && Advance(old(graph), old(state), graph, state) && old(state).Keys <= state.Keys
      decreases |base.Keys - state.Keys|, 1
    {
      ghost var here := stack + [id];
      if id in state && state[id] == Grey {
        ghost var k :| 0 <= k < |stack| && stack[k] == id;
        assert here[|stack|] == here[k];
        assert PathFrom(base, here[0], here) && !NoDup(here);
        return Err(CyclicCombo(id));
      }
      if id in state && state[id] == Black {
        return Ok(graph[id].depth);
      }
      if id !in graph {
        assert PathFrom(base, here[0], here);
        return Err(InvalidCombo(id, UnknownRef(id)));
      }
      r := Explore(id, stack);
    }

    /** A node met for the first time: grey while its references are searched, black with its depth after. */
    method Explore(id: string, ghost stack: seq<string>) returns (r: Result<int>)
      requires Sane(base, graph, state) && Stacked(state, stack) && Path(base, stack + [id])
      requires id in graph && id !in state
      modifies this
      ensures Verdict(base, (stack + [id])[0], id, r)
      ensures r.Ok? ==> Sane(base, graph, state) && Stacked(state, stack)
                        && Advance(old(graph), old(state), graph, state) && old(state).Keys <= state.Keys
      decreases |base.Keys - state.Keys|, 0
    {
      var node := graph[id];
      ghost var g0, s0 := graph, state;
      EnterSane(base, graph, state, id);
      EnterStack(state, stack, id);
      FewerWhite(base.Keys, state, id);
      state := state[id := Grey];
      r := Children(node, id, stack + [id]);
      if r.Ok? {
        LeaveSane(base, graph, state, id, node, r.value);
        LeaveStack(state, stack, id);
        LeaveAdvance(g0, s0, graph, state, id, node.(depth := r.value));
        state := state[id := Black];
        graph := graph[id := node.(depth := r.value)];
      }
    }

    /** One step of node id: the depth below it, or -1 when it is no reference. (g0, s0) is the state the loop over
        the node's steps started in. */
    method Child(s: Step, ghost id: string, ghost here: seq<string>, ghost g0: Graph, ghost s0: map<string, Color>)
      returns (r: Result<int>)
      requires Sane(base, graph, state) && Stacked(state, here) && Path(base, here) && here[|here| - 1] == id
      requires id in base && s in base[id].steps
      requires SameSteps(g0, base) && Advance(g0, s0, graph, state) && s0.Keys <= state.Keys
      modifies this
      ensures r.Err? ==> Verdict(base, here[0], id, r)
      ensures r.Ok? ==> Sane(base, graph, state) && Stacked(state, here) && ChildDepth(base, s, r.value)
                        && Advance(g0, s0, graph, state) && s0.Keys <= state.Keys
      decreases |base.Keys - state.Keys|, 2
    {
      if !IsRef(s) {
        return Ok(-1);
      }
      PathExtend(base, here, s.ref);
      ghost var g1, s1 := graph, state;
      r := DepthOf(s.ref, here);
      if r.Ok? {
        AdvanceTrans(base, g0, s0, g1, s1, graph, state);
      }
    }

    method Children(node: Combo, id: string, ghost here: seq<string>) returns (r: Result<int>)
      requires Sane(base, graph, state) && Stacked(state, here) && Path(base, here) && here[|here| - 1] == id
      requires id in base && node.steps == base[id].steps
      modifies this
      ensures Verdict(base, here[0], id, r)
      ensures r.Ok? ==> Sane(base, graph, state) && Stacked(state, here)
                        && Advance(old(graph), old(state), graph, state) && old(state).Keys <= state.Keys
      decreases |base.Keys - state.Keys|, 3
    {
      var maxChild := 0;
      ghost var g0, s0 := graph, state;
      ghost var cs: seq<int> := [];
      for i := 0 to |node.steps|
        invariant Sane(base, graph, state) && Stacked(state, here)
        invariant Advance(g0, s0, graph, state) && s0.Keys <= state.Keys
        invariant ChildDepths(base, node.steps, cs) && |cs| == i && maxChild == Deepest(cs)
      {
        SubsetSize(base.Keys - state.Keys, base.Keys - s0.Keys);
        var child := Child(node.steps[i], id, here, g0, s0);
        if child.Err? { return child; }
        NextChild(base, node.steps, cs, child.value);
        cs := cs + [child.value];
        if child.value + 1 > maxChild { maxChild := child.value + 1; }
      }
      MeasuredAll(base, id, cs);
      return Ok(maxChild);
    }
  }

  /** The graph a save searches: the stored combos with the saved one in place. */
  ghost function Searched(c: Combo, existing: Graph): Graph { existing[c.id := c] }

  /** Everything reachable from id resolves, without a cycle, and the longest reference path has length d <= 8. */
  ghost predicate SoundFrom(g: Graph, id: string, d: int) {
    Resolves(g, id) && AcyclicFrom(g, id) && Longest(g, id, d) && d <= MAX_DEPTH
  }

  ghost predicate Admissible(c: Combo, existing: Graph, providers: Option<ProviderSet>) {
    && Shaped(c) && (forall s | s in c.steps :: TargetAllowed(s, providers)) && FanoutLegal(c)
  }

  lemma OkIffSound(g: Graph, id: string, r: Result<int>)
    requires Verdict(g, id, id, r)
    ensures r.Ok? <==> Resolves(g, id) && AcyclicFrom(g, id)
    ensures forall d :: DoneAt(g, id, d) <==> r.Ok? && d == r.value
  {
    forall d | DoneAt(g, id, d) ensures AcyclicFrom(g, id) && (r.Ok? ==> d == r.value) {
      BoundedIsAcyclic(g, id, d);
      if r.Ok? { LongestUnique(g, id, d, r.value); }
    }
    if r.Ok? { BoundedIsAcyclic(g, id, r.value); }
  }

  lemma SoundIsDone(g: Graph, id: string, d: int)
    requires DoneAt(g, id, d) && d > MAX_DEPTH
    ensures forall e :: !SoundFrom(g, id, e)
  {
    forall e | SoundFrom(g, id, e) ensures d == e {
      LongestUnique(g, id, d, e);
    }
  }

  /** With the combo stored under its own name, the reference checks add nothing to the search. */
  lemma OwnNameRefsKnown(c: Combo, existing: Graph)
    requires c.id == c.name
    requires Resolves(Searched(c, existing), c.id) && AcyclicFrom(Searched(c, existing), c.id)
    ensures RefsKnown(c, existing)
  {
    var g := Searched(c, existing);
    forall s | s in c.steps && IsRef(s) ensures s.ref != c.name && s.ref in existing {
      var i :| 0 <= i < |c.steps| && c.steps[i] == s;
      assert Edge(g, c.id, s.ref);
      var p := [c.id, s.ref];
      assert PathFrom(g, c.id, p);
      assert NoDup(p) && p[1] in g;
      assert p[0] != p[1];
    }
  }

  /** A save is accepted with depth d exactly when the combo is well shaped, its targets are allowed, its
      fan-out is legal, its references are known, and the reference graph below it is sound with depth d; under its own name
      the last says that the references are known. */
  method ValidateGraph(c: Combo, existing: Graph, providers: Option<ProviderSet>) returns (r: Result<int>)
    ensures r.Ok? <==> Admissible(c, existing, providers) && RefsKnown(c, existing)
                       && exists d :: SoundFrom(Searched(c, existing), c.id, d)
    ensures c.id == c.name ==>
              (r.Ok? <==> Admissible(c, existing, providers) && exists d :: SoundFrom(Searched(c, existing), c.id, d))
    ensures r.Ok? ==> SoundFrom(Searched(c, existing), c.id, r.value)
    ensures r.Err? && r.error.DepthExceeded? <==>
              Admissible(c, existing, providers) && RefsKnown(c, existing)
              && exists d :: d > MAX_DEPTH && DoneAt(Searched(c, existing), c.id, d)
    ensures r.Err? && r.error.CyclicCombo? ==>
              HasRepeat(Searched(c, existing), c.id) || RefersTo(c, c.name)
  {
    ghost var g := Searched(c, existing);
    if c.id == c.name && (exists d :: SoundFrom(g, c.id, d)) { OwnNameRefsKnown(c, existing); }
    var shape := CheckShape(c);
    if shape.Some? { return Err(shape.value); }
    var targets := CheckTargets(c, providers);
    if targets.Some? { return Err(targets.value); }
    var refs := CheckRefs(c, existing);
    if refs.Some? { return Err(refs.value); }
    if c.strategy.Fusion? && |c.steps| > MAX_FANOUT { return Err(FanoutExceeded(c.name)); }
    var search := new DepthSearch(existing[c.id := c]);
    assert Path(g, [] + [c.id]) && ([] + [c.id])[0] == c.id;
    r := search.DepthOf(c.id, []);
    OkIffSound(g, c.id, r);
    if r.Err? { return r; }
    assert DoneAt(g, c.id, r.value);
    if r.value > MAX_DEPTH {
      SoundIsDone(g, c.id, r.value);
      return Err(DepthExceeded(c.name));
    }
    assert SoundFrom(g, c.id, r.value);
  }
}
