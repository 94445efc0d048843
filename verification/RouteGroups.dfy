/** Structural plans (internal/router/strategies_structural.go, resolver.go): candidates grouped by step into fusion
    panels or pipeline stages. */
module RouteGroups {
  import opened StableSorting
  import opened RouteOrder

  datatype Kind = Priority | Fallback | RoundRobin | Weighted | FillFirst | Cost | P2C | Auto | Fusion | Pipeline

  datatype Panel = Panel(number: nat, plan: Plan)

  /** A panel's label is "panel-" and its number. */
  datatype Plan = Plan(combo: string, kind: Kind, attempts: seq<Cand>, maxRounds: int,
                       panels: seq<Panel>, judge: Option<Plan>, chain: seq<Plan>)

  function Leaf(attempts: seq<Cand>): Plan { Plan("", Auto, attempts, |attempts|, [], None, []) }

  // --- grouping ---

  /** The step the last expanded candidate with this key came from. */
  function StepsOf(xs: seq<Expanded>): map<string, int> {
    if xs == [] then map[] else StepsOf(xs[..|xs| - 1])[StableKey(CandOf(xs[|xs| - 1])) := xs[|xs| - 1].step]
  }

  /** An unknown candidate reads the map's zero value, so it joins step 0. */
  function StepOf(m: map<string, int>): Cand -> int { c => if StableKey(c) in m then m[StableKey(c)] else 0 }

  function In<T>(at: T -> int, s: int): T -> bool { c => at(c) == s }

  ghost predicate Ascending(steps: seq<int>) { forall i, j :: 0 <= i < j < |steps| ==> steps[i] < steps[j] }

  ghost predicate IsGrouping<T>(groups: seq<seq<T>>, steps: seq<int>, order: seq<T>, at: T -> int) {
    && |groups| == |steps| && Ascending(steps)
    && (forall i | 0 <= i < |steps| :: groups[i] == Keep(In(at, steps[i]), order) && groups[i] != [])
    && (forall i | 0 <= i < |order| :: at(order[i]) in steps)
  }

  function IntLess(): (int, int) -> bool { (a, b) => a < b }

  /** The distinct steps seen, ascending. */
  method DistinctSteps<T>(order: seq<T>, at: T -> int) returns (steps: seq<int>)
    ensures Ascending(steps)
    ensures forall i | 0 <= i < |order| :: at(order[i]) in steps
    ensures forall s | s in steps :: exists i :: 0 <= i < |order| && at(order[i]) == s
  {
    var found: seq<int> := [];
    var seen: set<int> := {};
    for i := 0 to |order|
      invariant forall s :: s in seen <==> s in found
      invariant forall j | 0 <= j < i :: at(order[j]) in found
      invariant forall s | s in found :: exists j :: 0 <= j < i && at(order[j]) == s
      invariant forall a, b :: 0 <= a < b < |found| ==> found[a] != found[b]
    {
      var s := at(order[i]);
      if s !in seen {
        seen := seen + {s};
        found := found + [s];
      }
    }
    steps := StableSort(IntLess(), found);
    SortInts(found);
  }

  lemma SortInts(found: seq<int>)
    requires forall a, b :: 0 <= a < b < |found| ==> found[a] != found[b]
    ensures Ascending(StableSort(IntLess(), found))
    ensures forall s :: s in StableSort(IntLess(), found) <==> s in found
  {
    var r := StableSort(IntLess(), found);
    SortIsStableSort(IntLess(), found);
    SortPermutes(IntLess(), found);
    forall s ensures s in r <==> s in found {
      assert s in r <==> s in multiset(r);
      assert s in found <==> s in multiset(found);
    }
    DistinctMultiplicity(found);
    forall i, j | 0 <= i < j < |r| ensures r[i] < r[j] {
      assert !IntLess()(r[j], r[i]);
      if r[i] == r[j] { TwiceMultiplicity(r, i, j); }
    }
  }

  lemma {:induction false} DistinctMultiplicity<T>(s: seq<T>)
    requires forall a, b :: 0 <= a < b < |s| ==> s[a] != s[b]
    ensures forall x :: multiset(s)[x] <= 1
  {
    if s != [] {
      DistinctMultiplicity(s[1..]);
      WithoutHead(s);
      assert s[0] !in s[1..];
    }
  }

  lemma TwiceMultiplicity<T>(s: seq<T>, i: nat, j: nat)
    requires i < j < |s| && s[i] == s[j]
    ensures multiset(s)[s[i]] >= 2
  {
    assert s == s[..i] + [s[i]] + s[i + 1..j] + [s[j]] + s[j + 1..];
  }

  method GroupByStep(order: seq<Cand>, xs: seq<Expanded>) returns (groups: seq<seq<Cand>>, ghost steps: seq<int>)
    ensures multiset(Flatten(groups)) == multiset(order) && forall k | 0 <= k < |groups| :: groups[k] != []
    ensures IsGrouping(groups, steps, order, StepOf(StepsOf(xs)))
  {
    var stepOf: map<string, int> := map[];
    for i := 0 to |xs|
      invariant stepOf == StepsOf(xs[..i])
    {
      assert xs[..i + 1][..i] == xs[..i];
      stepOf := stepOf[StableKey(CandOf(xs[i])) := xs[i].step];
    }
    assert xs[..|xs|] == xs;
    var at := StepOf(stepOf);
    groups, steps := GroupBy(order, at);
    GroupingIsPermutation(groups, steps, order, at);
  }

  method GroupBy<T>(order: seq<T>, at: T -> int) returns (groups: seq<seq<T>>, steps: seq<int>)
    ensures IsGrouping(groups, steps, order, at)
  {
    steps := DistinctSteps(order, at);
    groups := [];
    for i := 0 to |steps|
      invariant |groups| == i
      invariant forall j | 0 <= j < i :: groups[j] == Keep(In(at, steps[j]), order)
    {
      var g := Collect(order, at, steps[i]);
      groups := groups + [g];
    }
    forall i | 0 <= i < |steps| ensures groups[i] != [] {
      assert steps[i] in steps;
      var j :| 0 <= j < |order| && at(order[j]) == steps[i];
      KeepHas(In(at, steps[i]), order, j);
    }
  }

  method Collect<T>(order: seq<T>, at: T -> int, s: int) returns (g: seq<T>)
    ensures g == Keep(In(at, s), order)
  {
    g := [];
    for k := 0 to |order|
      invariant g + Keep(In(at, s), order[k..]) == Keep(In(at, s), order)
    {
      if at(order[k]) == s {
        g := g + [order[k]];
      }
      assert order[k..][1..] == order[k + 1..];
    }
  }

  lemma {:induction false} KeepHas<T>(p: T -> bool, s: seq<T>, j: nat)
    requires j < |s| && p(s[j])
    ensures s[j] in Keep(p, s)
  {
    if j > 0 { KeepHas(p, s[1..], j - 1); }
  }

  // --- every candidate once ---

  function Flatten<T>(groups: seq<seq<T>>): seq<T> {
    if groups == [] then [] else groups[0] + Flatten(groups[1..])
  }

  function InAny<T>(at: T -> int, steps: seq<int>): T -> bool { c => at(c) in steps }

  lemma {:induction false} KeepDisjoint<T>(at: T -> int, steps: seq<int>, s: seq<T>)
    requires steps != [] && Ascending(steps)
    ensures multiset(Keep(InAny(at, steps), s))
         == multiset(Keep(In(at, steps[0]), s)) + multiset(Keep(InAny(at, steps[1..]), s))
  {
    if s != [] {
      KeepDisjoint(at, steps, s[1..]);
      var k := at(s[0]);
      assert k in steps <==> k == steps[0] || k in steps[1..];
      assert k == steps[0] ==> k !in steps[1..];
    }
  }

  lemma {:induction false} GroupsCover<T>(groups: seq<seq<T>>, steps: seq<int>, order: seq<T>, at: T -> int)
    requires |groups| == |steps| && Ascending(steps)
    requires forall i | 0 <= i < |steps| :: groups[i] == Keep(In(at, steps[i]), order)
    ensures multiset(Flatten(groups)) == multiset(Keep(InAny(at, steps), order))
  {
    if steps == [] {
      KeepNone(InAny(at, steps), order);
    } else {
      GroupsCover(groups[1..], steps[1..], order, at);
      KeepDisjoint(at, steps, order);
    }
  }

  lemma {:induction false} KeepEvery<T>(p: T -> bool, s: seq<T>)
    requires forall i | 0 <= i < |s| :: p(s[i])
    ensures Keep(p, s) == s
  {
    if s != [] { KeepEvery(p, s[1..]); }
  }

  /** Grouping neither drops nor repeats a candidate. */
  lemma GroupingIsPermutation<T>(groups: seq<seq<T>>, steps: seq<int>, order: seq<T>, at: T -> int)
    requires IsGrouping(groups, steps, order, at)
    ensures multiset(Flatten(groups)) == multiset(order)
  {
    GroupsCover(groups, steps, order, at);
    KeepEvery(InAny(at, steps), order);
  }

  // --- compatible first within each group ---

  lemma {:induction false} KeepConcat<T>(p: T -> bool, a: seq<T>, b: seq<T>)
    ensures Keep(p, a + b) == Keep(p, a) + Keep(p, b)
  {
    if a == [] {
      assert a + b == b;
    } else {
      assert (a + b)[1..] == a[1..] + b && (a + b)[0] == a[0];
      KeepConcat(p, a[1..], b);
      assert Keep(p, a) == (if p(a[0]) then [a[0]] else []) + Keep(p, a[1..]);
    }
  }

  lemma {:induction false} KeepSwaps<T>(p: T -> bool, q: T -> bool, s: seq<T>)
    ensures Keep(p, Keep(q, s)) == Keep(q, Keep(p, s))
  {
    if s != [] {
      KeepSwaps(p, q, s[1..]);
      KeepCons(p, s[0], Keep(q, s[1..]));
      KeepCons(q, s[0], Keep(p, s[1..]));
      assert [] + Keep(p, s[1..]) == Keep(p, s[1..]) && [] + Keep(q, s[1..]) == Keep(q, s[1..]);
    }
  }

  lemma KeepCons<T>(p: T -> bool, x: T, s: seq<T>)
    ensures Keep(p, [x] + s) == (if p(x) then [x] else []) + Keep(p, s)
  {
    assert ([x] + s)[1..] == s;
  }

  predicate FitsFirst(fits: Cand -> bool, g: seq<Cand>) {
    g == Keep(fits, g) + Keep(Not(fits), g)
  }

  lemma GroupFitsFirst(fits: Cand -> bool, at: Cand -> int, s: int, order: seq<Cand>)
    requires order == Keep(fits, order) + Keep(Not(fits), order)
    ensures FitsFirst(fits, Keep(In(at, s), order))
  {
    KeepConcat(In(at, s), Keep(fits, order), Keep(Not(fits), order));
    KeepSwaps(In(at, s), fits, order);
    KeepSwaps(In(at, s), Not(fits), order);
  }

  /** Demoting twice is demoting once. */
  lemma DemotedFitsFirst(fits: Cand -> bool, order: seq<Cand>)
    ensures FitsFirst(fits, Keep(fits, order) + Keep(Not(fits), order))
  {
    var a, b := Keep(fits, order), Keep(Not(fits), order);
    KeepTwice(fits, order);
    KeepConcat(fits, a, b);
    KeepConcat(Not(fits), a, b);
  }

  lemma {:induction false} KeepTwice<T>(p: T -> bool, s: seq<T>)
    ensures Keep(p, Keep(p, s)) == Keep(p, s) && Keep(Not(p), Keep(p, s)) == []
    ensures Keep(Not(p), Keep(Not(p), s)) == Keep(Not(p), s) && Keep(p, Keep(Not(p), s)) == []
  {
    if s != [] {
      KeepTwice(p, s[1..]);
      KeepCons(p, s[0], Keep(p, s[1..]));
      KeepCons(Not(p), s[0], Keep(Not(p), s[1..]));
      KeepCons(Not(p), s[0], Keep(p, s[1..]));
      KeepCons(p, s[0], Keep(Not(p), s[1..]));
      assert [] + Keep(p, s[1..]) == Keep(p, s[1..]) && [] + Keep(Not(p), s[1..]) == Keep(Not(p), s[1..]);
    }
  }

  // --- steps are origins ---

  /** The maps keyed by candidate hold what the last candidate with that key carries. */
  lemma {:induction false} LastWins(xs: seq<Expanded>, i: nat) returns (l: nat)
    requires i < |xs|
    ensures i <= l < |xs| && StableKey(CandOf(xs[l])) == StableKey(CandOf(xs[i]))
    ensures StepOf(StepsOf(xs))(CandOf(xs[i])) == xs[l].step && Fits(CompatOf(xs))(CandOf(xs[i])) == xs[l].compatible
  {
    var p, last := xs[..|xs| - 1], |xs| - 1;
    if StableKey(CandOf(xs[last])) == StableKey(CandOf(xs[i])) {
      l := last;
    } else {
      l := LastWins(p, i);
    }
  }

  ghost predicate KeysAgreeOnStep(xs: seq<Expanded>) {
    forall i, j | 0 <= i < |xs| && 0 <= j < |xs| && StableKey(CandOf(xs[i])) == StableKey(CandOf(xs[j])) ::
      xs[i].step == xs[j].step
  }

  ghost predicate KeysAgreeOnFit(xs: seq<Expanded>) {
    forall i, j | 0 <= i < |xs| && 0 <= j < |xs| && StableKey(CandOf(xs[i])) == StableKey(CandOf(xs[j])) ::
      xs[i].compatible == xs[j].compatible
  }

  /** The grouping finds every candidate's own step, and demotion its own compatibility, exactly when candidates that
      share a key share it too. */
  lemma StepsAreOriginsIff(xs: seq<Expanded>)
    ensures (forall i | 0 <= i < |xs| :: StepOf(StepsOf(xs))(CandOf(xs[i])) == xs[i].step) <==> KeysAgreeOnStep(xs)
    ensures (forall i | 0 <= i < |xs| :: Fits(CompatOf(xs))(CandOf(xs[i])) == xs[i].compatible) <==> KeysAgreeOnFit(xs)
  {
    forall i | 0 <= i < |xs|
      ensures KeysAgreeOnStep(xs) ==> StepOf(StepsOf(xs))(CandOf(xs[i])) == xs[i].step
      ensures KeysAgreeOnFit(xs) ==> Fits(CompatOf(xs))(CandOf(xs[i])) == xs[i].compatible
    {
      var l := LastWins(xs, i);
    }
    forall i, j | 0 <= i < |xs| && 0 <= j < |xs| && StableKey(CandOf(xs[i])) == StableKey(CandOf(xs[j]))
      ensures StepOf(StepsOf(xs))(CandOf(xs[i])) == StepOf(StepsOf(xs))(CandOf(xs[j]))
      ensures Fits(CompatOf(xs))(CandOf(xs[i])) == Fits(CompatOf(xs))(CandOf(xs[j]))
    {
    }
  }

  // --- the structural plan ---

  /** What a combo's stages look like: non-empty, one ascending step each, compatible candidates first, and together
      exactly the candidates that survived the preflight; each candidate stands in the stage of its own step exactly
      when no two steps name the same provider and model. */
  ghost predicate Staged(stages: seq<seq<Cand>>, steps: seq<int>, xs: seq<Expanded>) {
    && |stages| == |steps| && Ascending(steps)
    && (forall k | 0 <= k < |stages| :: stages[k] != [] && FitsFirst(Fits(CompatOf(xs)), stages[k]))
    && multiset(Flatten(stages)) == multiset(Cands(xs))
    && (Separated(stages, steps, xs) <==> KeysAgreeOnStep(xs))
  }

  /** Every candidate stands in the stage of the step it was expanded from. */
  ghost predicate Separated(stages: seq<seq<Cand>>, steps: seq<int>, xs: seq<Expanded>)
    requires |stages| == |steps|
  {
    forall i | 0 <= i < |xs| :: exists k :: 0 <= k < |stages| && steps[k] == xs[i].step && CandOf(xs[i]) in stages[k]
  }

  lemma InStageIff(groups: seq<seq<Cand>>, steps: seq<int>, order: seq<Cand>, at: Cand -> int, c: Cand, s: int)
    requires IsGrouping(groups, steps, order, at) && c in order
    ensures (exists k :: 0 <= k < |groups| && steps[k] == s && c in groups[k]) <==> at(c) == s
  {
    var n :| 0 <= n < |order| && order[n] == c;
    forall k | 0 <= k < |groups| ensures c in groups[k] <==> at(c) == steps[k] {
      KeepAll(In(at, steps[k]), order);
      if c in groups[k] {
        var j :| 0 <= j < |groups[k]| && groups[k][j] == c;
        assert In(at, steps[k])(groups[k][j]);
      }
      if at(c) == steps[k] { KeepHas(In(at, steps[k]), order, n); }
    }
    if at(c) == s {
      assert at(order[n]) in steps;
      var k :| 0 <= k < |steps| && steps[k] == s;
      assert c in groups[k];
    }
  }

  lemma SeparatedIff(groups: seq<seq<Cand>>, steps: seq<int>, order: seq<Cand>, xs: seq<Expanded>)
    requires IsGrouping(groups, steps, order, StepOf(StepsOf(xs))) && multiset(order) == multiset(Cands(xs))
    ensures Separated(groups, steps, xs) <==> KeysAgreeOnStep(xs)
  {
    var at := StepOf(StepsOf(xs));
    forall i | 0 <= i < |xs|
      ensures (exists k :: 0 <= k < |groups| && steps[k] == xs[i].step && CandOf(xs[i]) in groups[k])
         <==> at(CandOf(xs[i])) == xs[i].step
    {
      assert Cands(xs)[i] in multiset(Cands(xs));
      InStageIff(groups, steps, order, at, CandOf(xs[i]), xs[i].step);
    }
    StepsAreOriginsIff(xs);
  }

  lemma GroupingIsStaged(groups: seq<seq<Cand>>, steps: seq<int>, order: seq<Cand>, xs: seq<Expanded>)
    requires IsGrouping(groups, steps, order, StepOf(StepsOf(xs)))
    requires multiset(order) == multiset(Cands(xs)) && FitsFirst(Fits(CompatOf(xs)), order)
    ensures Staged(groups, steps, xs)
  {
    var at := StepOf(StepsOf(xs));
    GroupingIsPermutation(groups, steps, order, at);
    forall k | 0 <= k < |groups| ensures FitsFirst(Fits(CompatOf(xs)), groups[k]) {
      GroupFitsFirst(Fits(CompatOf(xs)), at, steps[k], order);
    }
    SeparatedIff(groups, steps, order, xs);
  }

  lemma {:induction false} KeepWithin<T>(p: T -> bool, s: seq<T>, j: nat)
    requires j < |Keep(p, s)|
    ensures Keep(p, s)[j] in s
  {
    if p(s[0]) {
      if j > 0 { KeepWithin(p, s[1..], j - 1); }
    } else {
      KeepWithin(p, s[1..], j);
    }
  }

  /** Two steps naming the same provider and model are not told apart: they become one stage. */
  lemma SharedModelMergesSteps(e: Expanded, order: seq<Cand>, groups: seq<seq<Cand>>, steps: seq<int>)
    requires var xs := [e.(step := 0), e.(step := 1)];
      multiset(order) == multiset(Cands(xs)) && IsGrouping(groups, steps, order, StepOf(StepsOf(xs)))
    ensures |groups| == 1 && steps == [1] && groups[0] == [CandOf(e), CandOf(e)]
  {
    var xs := [e.(step := 0), e.(step := 1)];
    assert Cands(xs) == [CandOf(e), CandOf(e)];
    assert |order| == |multiset(order)| == 2;
    assert order[0] in multiset(order) && order[1] in multiset(order);
    assert order == [CandOf(e), CandOf(e)];
    var m := StepsOf(xs);
    assert xs[..1] == [e.(step := 0)];
    assert m[StableKey(CandOf(e))] == 1;
    forall i | 0 <= i < |steps| ensures steps[i] == 1 {
      KeepWithin(In(StepOf(m), steps[i]), order, 0);
      KeepAll(In(StepOf(m), steps[i]), order);
    }
    assert |steps| >= 1 by { assert StepOf(m)(order[0]) in steps; }
    assert |steps| == 1 by { if |steps| >= 2 { DistinctSteps2(steps); } }
    KeepEvery(In(StepOf(m), 1), order);
  }

  lemma DistinctSteps2(steps: seq<int>)
    requires Ascending(steps) && |steps| >= 2
    ensures steps[0] < steps[1]
  {
  }

  datatype ResolveError = NoCandidate | FanoutExceeded(panels: nat) | FusionSelfJudge | JudgeFailed

  datatype Resolved = Resolved(plan: Plan) | Failed(error: ResolveError)

  const MAX_FANOUT := 8

  /** The judge port: absent, failing, or naming a plan. */
  datatype Judge = NoJudge | JudgeError | JudgePlan(plan: Plan)

  method Leaves(groups: seq<seq<Cand>>) returns (plans: seq<Plan>)
    ensures (forall k | 0 <= k < |groups| :: groups[k] != []) ==>
              |plans| == |groups| && forall k | 0 <= k < |groups| :: plans[k] == Leaf(groups[k])
  {
    plans := [];
    for k := 0 to |groups|
      invariant (forall j | 0 <= j < k :: groups[j] != []) ==>
                  |plans| == k && forall j | 0 <= j < k :: plans[j] == Leaf(groups[j])
    {
      if groups[k] != [] {
        plans := plans + [Leaf(groups[k])];
      }
    }
  }

  function Stages(plan: Plan): seq<seq<Cand>> {
    if plan.kind.Fusion? then seq(|plan.panels|, k requires 0 <= k < |plan.panels| => plan.panels[k].plan.attempts)
    else seq(|plan.chain|, k requires 0 <= k < |plan.chain| => plan.chain[k].attempts)
  }

  /** A plan whose stages are `stages`: one leaf plan each, as panels numbered from 1 or as the chain. */
  ghost predicate Carries(plan: Plan, kind: Kind, stages: seq<seq<Cand>>) {
    && plan.kind == kind
    && Stages(plan) == stages
    && (kind.Fusion? ==> plan.chain == [] && forall k | 0 <= k < |stages| :: plan.panels[k] == Panel(k + 1, Leaf(stages[k])))
    && (kind.Pipeline? ==> plan.panels == [] && forall k | 0 <= k < |stages| :: plan.chain[k] == Leaf(stages[k]))
  }

  function JudgeToRun(judge: Judge): Option<Plan> {
    if judge.JudgePlan? && judge.plan.attempts != [] then Some(judge.plan) else None
  }

  /** The judge route the guards refuse: itself a fusion, or naming this combo. */
  predicate SelfJudging(judge: Judge, name: string) {
    judge.JudgePlan? && (judge.plan.kind.Fusion? || judge.plan.combo == name)
  }

  lemma CarriesChain(plan: Plan, groups: seq<seq<Cand>>)
    requires plan.kind.Pipeline? && plan.panels == [] && |plan.chain| == |groups|
    requires forall k | 0 <= k < |groups| :: plan.chain[k] == Leaf(groups[k])
    ensures Carries(plan, plan.kind, groups)
  {
    assert Stages(plan) == groups;
  }

  lemma CarriesPanels(plan: Plan, groups: seq<seq<Cand>>)
    requires plan.kind.Fusion? && plan.chain == [] && |plan.panels| == |groups|
    requires forall k | 0 <= k < |groups| :: plan.panels[k] == Panel(k + 1, Leaf(groups[k]))
    ensures Carries(plan, plan.kind, groups)
  {
    assert Stages(plan) == groups;
  }

  method Arrange(xs: seq<Expanded>) returns (order: seq<Cand>, groups: seq<seq<Cand>>, ghost steps: seq<int>)
    ensures Staged(groups, steps, xs) && multiset(order) == multiset(Cands(xs))
    ensures xs != [] ==> groups != []
  {
    var sorted := OrderBy(ByStep(), xs);
    OrderIsPermutation(ByStep(), xs);
    order := Demote(sorted, xs);
    DemotedFitsFirst(Fits(CompatOf(xs)), sorted);
    groups, steps := GroupByStep(order, xs);
    GroupingIsStaged(groups, steps, order, xs);
    if xs != [] {
      assert Cands(xs)[0] in multiset(Cands(xs));
    }
  }

  /** Resolve of a fusion or pipeline combo, from the survivors of the preflight on. */
  method ResolveStructural(kind: Kind, combo: string, name: string, declared: nat, xs: seq<Expanded>, judge: Judge)
    returns (r: Resolved, ghost stages: seq<seq<Cand>>, ghost steps: seq<int>)
    requires kind.Fusion? || kind.Pipeline?
    ensures Staged(stages, steps, xs)
    ensures r.Resolved? ==>
              && Carries(r.plan, kind, stages) && stages != [] && r.plan.combo == combo
              && multiset(r.plan.attempts) == multiset(Cands(xs))
              && r.plan.maxRounds == (if kind.Fusion? then 2 else declared)
              && r.plan.judge == (if kind.Fusion? then JudgeToRun(judge) else None)
    ensures r == Failed(NoCandidate) <==> xs == []
    ensures xs != [] && kind.Pipeline? ==> r.Resolved?
    ensures xs != [] && kind.Fusion? ==>
              && (r == Failed(FanoutExceeded(|stages|)) <==> |stages| > MAX_FANOUT)
              && (r == Failed(JudgeFailed) <==> |stages| <= MAX_FANOUT && judge.JudgeError?)
              && (r == Failed(FusionSelfJudge) <==> |stages| <= MAX_FANOUT && SelfJudging(judge, name))
  {
    var order, groups;
    order, groups, steps := Arrange(xs);
    stages := groups;
    if xs == [] {
      return Failed(NoCandidate), stages, steps;
    }
    var leaves := Leaves(groups);
    if kind.Pipeline? {
      var plan := Plan(combo, kind, order, declared, [], None, leaves);
      CarriesChain(plan, groups);
      return Resolved(plan), stages, steps;
    }
    if |groups| > MAX_FANOUT {
      return Failed(FanoutExceeded(|groups|)), stages, steps;
    }
    if judge.JudgeError? {
      return Failed(JudgeFailed), stages, steps;
    }
    if judge.JudgePlan? && (judge.plan.kind.Fusion? || judge.plan.combo == name) {
      return Failed(FusionSelfJudge), stages, steps;
    }
    var panels := seq(|leaves|, k requires 0 <= k < |leaves| => Panel(k + 1, leaves[k]));
    var plan := Plan(combo, kind, order, 2, panels, JudgeToRun(judge), []);
    CarriesPanels(plan, groups);
    return Resolved(plan), stages, steps;
  }
}
