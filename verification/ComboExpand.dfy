/** Request-time expansion of a combo into candidates (internal/router/expand.go), its exact failure
    conditions, its order, and its agreement with save-time validation. */
module ComboExpand {
  import opened ByteStrings
  import opened ComboGraph
  import opened ComboValidate
  import ComboStore

  /** The model catalog, with the capability fit of each pair against the request. */
  datatype Catalog = Catalog(providers: seq<string>, models: string -> seq<string>,
                             declares: (string, string) -> bool, fits: (string, string) -> bool)

  datatype Expanded = Expanded(provider: string, model: string, step: nat, weight: int,
                               allowed: seq<string>, onlyOnQuota: bool, compatible: bool)

  datatype ExpandError =
    | TooDeep(name: string) | Cyclic(name: string) | NoProvider(name: string, provider: string)
    | NoCombo(name: string, ref: string) | NoKind(name: string, kind: string)

  datatype Expansion = Expansion(candidates: seq<Expanded>) | Failure(error: ExpandError)

  function Make(cat: Catalog, i: nat, s: Step, provider: string, model: string): Expanded {
    Expanded(provider, model, i, s.WeightOrOne(), s.allowed, s.onlyOnQuota, cat.fits(provider, model))
  }

  // --- what one non-reference step emits ---

  function ModelStep(cat: Catalog, i: nat, s: Step, providers: seq<string>): seq<Expanded> {
    if providers == [] then []
    else (if cat.declares(providers[0], s.ref) then [Make(cat, i, s, providers[0], s.ref)] else [])
         + ModelStep(cat, i, s, providers[1..])
  }

  function ProviderStep(cat: Catalog, i: nat, s: Step, models: seq<string>): seq<Expanded> {
    if models == [] then [] else [Make(cat, i, s, s.ref, models[0])] + ProviderStep(cat, i, s, models[1..])
  }

  function LeafStep(cat: Catalog, i: nat, s: Step): seq<Expanded> {
    if s.kind.StepModel? then ModelStep(cat, i, s, cat.providers)
    else if s.kind.StepProviderWildcard? then ProviderStep(cat, i, s, cat.models(s.ref))
    else []
  }

  function Retag(xs: seq<Expanded>, i: nat, w: int): (r: seq<Expanded>)
    ensures |r| == |xs| && forall k | 0 <= k < |xs| :: r[k] == xs[k].(step := i, weight := w)
  {
    seq(|xs|, k requires 0 <= k < |xs| => xs[k].(step := i, weight := w))
  }

  // --- routes: the reference paths down to a model or provider step, as step indices ---

  ghost predicate IsRoute(g: Graph, id: string, route: seq<nat>)
    decreases |route|
  {
    && id in g && route != [] && route[0] < |g[id].steps|
    && var s := g[id].steps[route[0]];
       if IsRef(s) then |route| >= 2 && IsRoute(g, s.ref, route[1..]) else |route| == 1
  }

  ghost predicate Before(a: seq<nat>, b: seq<nat>) {
    b != [] && (a == [] || a[0] < b[0] || (a[0] == b[0] && Before(a[1..], b[1..])))
  }

  /** The step a route ends at. */
  ghost function LeafOf(g: Graph, id: string, route: seq<nat>): Step
    requires IsRoute(g, id, route)
    decreases |route|
  {
    var s := g[id].steps[route[0]];
    if IsRef(s) then LeafOf(g, s.ref, route[1..]) else s
  }

  /** The candidates of one route: those of its last step, tagged with the top-level step's index and weight. */
  ghost function Emit(g: Graph, cat: Catalog, id: string, route: seq<nat>): seq<Expanded>
    requires IsRoute(g, id, route)
  {
    Retag(LeafStep(cat, 0, LeafOf(g, id, route)), route[0], g[id].steps[route[0]].WeightOrOne())
  }

  ghost function Prefixed(i: nat, routes: seq<seq<nat>>): (r: seq<seq<nat>>)
    ensures |r| == |routes| && forall k | 0 <= k < |r| :: r[k] == [i] + routes[k]
  {
    seq(|routes|, k requires 0 <= k < |routes| => [i] + routes[k])
  }

  /** All routes below id that follow fewer than n references, in order. */
  ghost function Routes(g: Graph, id: string, n: nat): seq<seq<nat>>
    decreases n, 1, 0
  {
    if n == 0 || id !in g then [] else RoutesFrom(g, id, 0, n)
  }

  ghost function StepRoutes(g: Graph, id: string, i: nat, n: nat): seq<seq<nat>>
    requires n > 0 && id in g && i < |g[id].steps|
    decreases n, 0, 0
  {
    var s := g[id].steps[i];
    if IsRef(s) then Prefixed(i, Routes(g, s.ref, n - 1)) else [[i]]
  }

  ghost function RoutesFrom(g: Graph, id: string, i: nat, n: nat): seq<seq<nat>>
    requires n > 0 && id in g && i <= |g[id].steps|
    decreases n, 0, |g[id].steps| - i + 1
  {
    if i == |g[id].steps| then [] else StepRoutes(g, id, i, n) + RoutesFrom(g, id, i + 1, n)
  }

  ghost predicate AllRoutes(g: Graph, id: string, routes: seq<seq<nat>>) {
    forall r | r in routes :: IsRoute(g, id, r)
  }

  ghost function Flat(g: Graph, cat: Catalog, id: string, routes: seq<seq<nat>>): seq<Expanded>
    requires AllRoutes(g, id, routes)
  {
    if routes == [] then [] else Emit(g, cat, id, routes[0]) + Flat(g, cat, id, routes[1..])
  }

  // --- routes are complete and ordered ---

  lemma {:induction false} RoutesAreRoutes(g: Graph, id: string, n: nat)
    ensures AllRoutes(g, id, Routes(g, id, n))
    decreases n, 1, 0
  {
    if n > 0 && id in g { RoutesFromAreRoutes(g, id, 0, n); }
  }

  lemma StepRoutesAreRoutes(g: Graph, id: string, i: nat, n: nat)
    requires n > 0 && id in g && i < |g[id].steps|
    ensures forall r | r in StepRoutes(g, id, i, n) :: IsRoute(g, id, r) && r[0] == i
    decreases n, 0, 0
  {
    var s := g[id].steps[i];
    if IsRef(s) {
      RoutesAreRoutes(g, s.ref, n - 1);
      var sub := Routes(g, s.ref, n - 1);
      forall r | r in Prefixed(i, sub) ensures IsRoute(g, id, r) && r[0] == i {
        var k :| 0 <= k < |sub| && r == [i] + sub[k];
        assert sub[k] in sub && r[1..] == sub[k];
      }
    }
  }

  lemma {:induction false} RoutesFromAreRoutes(g: Graph, id: string, i: nat, n: nat)
    requires n > 0 && id in g && i <= |g[id].steps|
    ensures forall r | r in RoutesFrom(g, id, i, n) :: IsRoute(g, id, r) && r[0] >= i
    decreases n, 0, |g[id].steps| - i + 1
  {
    if i < |g[id].steps| {
      StepRoutesAreRoutes(g, id, i, n);
      RoutesFromAreRoutes(g, id, i + 1, n);
    }
  }

  /** A route follows a reference path. */
  lemma {:induction false} RouteLength(g: Graph, id: string, route: seq<nat>) returns (p: seq<string>)
    requires IsRoute(g, id, route)
    ensures PathFrom(g, id, p) && |p| == |route|
    decreases |route|
  {
    var s := g[id].steps[route[0]];
    if IsRef(s) {
      assert Edge(g, id, s.ref);
      p := RouteLength(g, s.ref, route[1..]);
      PathPrepend(g, id, p);
      p := [id] + p;
    } else {
      p := [id];
    }
  }

  lemma {:induction false} ShortRoutesListed(g: Graph, id: string, n: nat, route: seq<nat>)
    requires IsRoute(g, id, route) && |route| <= n
    ensures route in Routes(g, id, n)
    decreases n
  {
    var i := route[0];
    var s := g[id].steps[i];
    assert route in StepRoutes(g, id, i, n) by {
      if IsRef(s) {
        ShortRoutesListed(g, s.ref, n - 1, route[1..]);
        var sub := Routes(g, s.ref, n - 1);
        var k :| 0 <= k < |sub| && sub[k] == route[1..];
        assert route == [i] + route[1..];
        assert Prefixed(i, sub)[k] == route;
      } else {
        assert route == [i];
      }
    }
    ListedFrom(g, id, 0, i, n, route);
  }

  lemma {:induction false} ListedFrom(g: Graph, id: string, j: nat, i: nat, n: nat, route: seq<nat>)
    requires n > 0 && id in g && j <= i < |g[id].steps| && route in StepRoutes(g, id, i, n)
    ensures route in RoutesFrom(g, id, j, n)
    decreases i - j
  {
    if j < i { ListedFrom(g, id, j + 1, i, n, route); }
  }

  ghost predicate InOrder(routes: seq<seq<nat>>) {
    forall a, b :: 0 <= a < b < |routes| ==> Before(routes[a], routes[b])
  }

  lemma {:induction false} RoutesInOrder(g: Graph, id: string, n: nat)
    ensures InOrder(Routes(g, id, n))
    decreases n, 1, 0
  {
    if n > 0 && id in g { RoutesFromInOrder(g, id, 0, n); }
  }

  lemma StepRoutesInOrder(g: Graph, id: string, i: nat, n: nat)
    requires n > 0 && id in g && i < |g[id].steps|
    ensures InOrder(StepRoutes(g, id, i, n))
    decreases n, 0, 0
  {
    var s := g[id].steps[i];
    if IsRef(s) {
      RoutesInOrder(g, s.ref, n - 1);
      var sub := Routes(g, s.ref, n - 1);
      var r := Prefixed(i, sub);
      forall a, b | 0 <= a < b < |r| ensures Before(r[a], r[b]) {
        assert r[a][1..] == sub[a] && r[b][1..] == sub[b];
      }
    }
  }

  lemma {:induction false} RoutesFromInOrder(g: Graph, id: string, i: nat, n: nat)
    requires n > 0 && id in g && i <= |g[id].steps|
    ensures InOrder(RoutesFrom(g, id, i, n))
    decreases n, 0, |g[id].steps| - i + 1
  {
    if i < |g[id].steps| {
      var head, tail := StepRoutes(g, id, i, n), RoutesFrom(g, id, i + 1, n);
      StepRoutesInOrder(g, id, i, n);
      RoutesFromInOrder(g, id, i + 1, n);
      StepRoutesAreRoutes(g, id, i, n);
      RoutesFromAreRoutes(g, id, i + 1, n);
      forall a, b | 0 <= a < b < |head + tail| ensures Before((head + tail)[a], (head + tail)[b]) {
        if a < |head| <= b {
          assert head[a] in head && tail[b - |head|] in tail;
        }
      }
    }
  }

  // --- candidates of a list of routes ---

  lemma RetagTwice(xs: seq<Expanded>, i: nat, w: int, j: nat, v: int)
    ensures Retag(Retag(xs, i, w), j, v) == Retag(xs, j, v)
  {
  }

  lemma RetagConcat(xs: seq<Expanded>, ys: seq<Expanded>, i: nat, w: int)
    ensures Retag(xs + ys, i, w) == Retag(xs, i, w) + Retag(ys, i, w)
  {
  }

  lemma {:induction false} ModelStepTag(cat: Catalog, i: nat, s: Step, providers: seq<string>)
    ensures ModelStep(cat, i, s, providers) == Retag(ModelStep(cat, 0, s, providers), i, s.WeightOrOne())
  {
    if providers != [] {
      ModelStepTag(cat, i, s, providers[1..]);
      var head := if cat.declares(providers[0], s.ref) then [Make(cat, 0, s, providers[0], s.ref)] else [];
      RetagConcat(head, ModelStep(cat, 0, s, providers[1..]), i, s.WeightOrOne());
      assert Retag(head, i, s.WeightOrOne()) ==
             if cat.declares(providers[0], s.ref) then [Make(cat, i, s, providers[0], s.ref)] else [];
    }
  }

  lemma {:induction false} ProviderStepTag(cat: Catalog, i: nat, s: Step, models: seq<string>)
    ensures ProviderStep(cat, i, s, models) == Retag(ProviderStep(cat, 0, s, models), i, s.WeightOrOne())
  {
    if models != [] {
      ProviderStepTag(cat, i, s, models[1..]);
      RetagConcat([Make(cat, 0, s, s.ref, models[0])], ProviderStep(cat, 0, s, models[1..]), i, s.WeightOrOne());
      assert Retag([Make(cat, 0, s, s.ref, models[0])], i, s.WeightOrOne()) == [Make(cat, i, s, s.ref, models[0])];
    }
  }

  lemma LeafEmit(g: Graph, cat: Catalog, id: string, i: nat)
    requires id in g && i < |g[id].steps| && !IsRef(g[id].steps[i])
    ensures IsRoute(g, id, [i]) && Emit(g, cat, id, [i]) == LeafStep(cat, i, g[id].steps[i])
  {
    ModelStepTag(cat, i, g[id].steps[i], cat.providers);
    ProviderStepTag(cat, i, g[id].steps[i], cat.models(g[id].steps[i].ref));
  }

  lemma AllRoutesConcat(g: Graph, id: string, a: seq<seq<nat>>, b: seq<seq<nat>>)
    ensures AllRoutes(g, id, a + b) <==> AllRoutes(g, id, a) && AllRoutes(g, id, b)
  {
    assert forall r :: r in a + b <==> r in a || r in b;
  }

  lemma FlatHead(g: Graph, cat: Catalog, id: string, r: seq<nat>, rest: seq<seq<nat>>)
    requires AllRoutes(g, id, [r] + rest)
    ensures IsRoute(g, id, r) && AllRoutes(g, id, rest)
    ensures Flat(g, cat, id, [r] + rest) == Emit(g, cat, id, r) + Flat(g, cat, id, rest)
  {
    AllRoutesConcat(g, id, [r], rest);
    assert r in [r];
    assert ([r] + rest)[1..] == rest;
  }

  lemma {:induction false} FlatConcat(g: Graph, cat: Catalog, id: string, a: seq<seq<nat>>, b: seq<seq<nat>>)
    requires AllRoutes(g, id, a + b)
    ensures AllRoutes(g, id, a) && AllRoutes(g, id, b)
    ensures Flat(g, cat, id, a + b) == Flat(g, cat, id, a) + Flat(g, cat, id, b)
  {
    AllRoutesConcat(g, id, a, b);
    if a == [] {
      assert a + b == b;
    } else {
      var r, rest := a[0], a[1..];
      assert a == [r] + rest && a + b == [r] + (rest + b);
      FlatHead(g, cat, id, r, rest + b);
      FlatHead(g, cat, id, r, rest);
      FlatConcat(g, cat, id, rest, b);
    }
  }

  /** A reference step emits what its target emits, retagged. */
  lemma {:induction false} FlatPrefixed(g: Graph, cat: Catalog, id: string, i: nat, sub: seq<seq<nat>>)
    requires id in g && i < |g[id].steps| && IsRef(g[id].steps[i])
    requires AllRoutes(g, g[id].steps[i].ref, sub)
    ensures AllRoutes(g, id, Prefixed(i, sub))
    ensures Flat(g, cat, id, Prefixed(i, sub)) ==
            Retag(Flat(g, cat, g[id].steps[i].ref, sub), i, g[id].steps[i].WeightOrOne())
  {
    var s := g[id].steps[i];
    forall r | r in Prefixed(i, sub) ensures IsRoute(g, id, r) {
      var k :| 0 <= k < |sub| && r == [i] + sub[k];
      assert sub[k] in sub && r[1..] == sub[k];
    }
    if sub != [] {
      var w := s.WeightOrOne();
      assert sub[0] in sub;
      FlatPrefixed(g, cat, id, i, sub[1..]);
      assert Prefixed(i, sub) == [[i] + sub[0]] + Prefixed(i, sub[1..]);
      assert ([i] + sub[0])[1..] == sub[0];
      RetagTwice(LeafStep(cat, 0, LeafOf(g, s.ref, sub[0])), sub[0][0], g[s.ref].steps[sub[0][0]].WeightOrOne(), i, w);
      RetagConcat(Emit(g, cat, s.ref, sub[0]), Flat(g, cat, s.ref, sub[1..]), i, w);
    }
  }

  // --- the expansion ---

  /** byID is keyed by the combos' own IDs. */
  ghost predicate KeyedByID(g: Graph) { forall k | k in g :: g[k].id == k }

  predicate StepKnown(cat: Catalog, s: Step) {
    !s.kind.UnknownKind? && (s.kind.StepProviderWildcard? ==> s.ref in cat.providers)
  }

  /** Every step of every combo reachable from id has a known kind and names a registered provider. */
  ghost predicate KnownBelow(g: Graph, cat: Catalog, id: string) {
    forall p | PathFrom(g, id, p) && p[|p| - 1] in g :: forall s | s in g[p[|p| - 1]].steps :: StepKnown(cat, s)
  }

  /** What a failure means for the combos below the root of the expansion. */
  ghost predicate Blame(g: Graph, cat: Catalog, root: string, e: ExpandError) {
    match e
    case TooDeep(_) => !DepthAtMost(g, root, MAX_DEPTH)
    case Cyclic(_) => HasRepeat(g, root)
    case NoCombo(_, _) => Dangles(g, root)
    case NoProvider(_, _) => !KnownBelow(g, cat, root)
    case NoKind(_, _) => !KnownBelow(g, cat, root)
  }

  /** What a success means: nothing to blame below id, and the candidates of all its routes in order. */
  ghost predicate Expands(g: Graph, cat: Catalog, id: string, budget: nat, out: seq<Expanded>) {
    && ClearBelow(g, cat, id, budget - 1)
    && (RoutesAreRoutes(g, id, budget); out == Flat(g, cat, id, Routes(g, id, budget)))
  }

  method ExpandModel(cat: Catalog, i: nat, s: Step) returns (out: seq<Expanded>)
    ensures out == ModelStep(cat, i, s, cat.providers)
  {
    out := [];
    for k := 0 to |cat.providers|
      invariant ModelStep(cat, i, s, cat.providers) == out + ModelStep(cat, i, s, cat.providers[k..])
    {
      assert cat.providers[k..][1..] == cat.providers[k + 1..];
      if cat.declares(cat.providers[k], s.ref) {
        out := out + [Make(cat, i, s, cat.providers[k], s.ref)];
      }
    }
  }

  method ExpandProvider(cat: Catalog, i: nat, s: Step) returns (out: seq<Expanded>)
    ensures out == ProviderStep(cat, i, s, cat.models(s.ref))
  {
    var models := cat.models(s.ref);
    out := [];
    for k := 0 to |models|
      invariant ProviderStep(cat, i, s, models) == out + ProviderStep(cat, i, s, models[k..])
    {
      assert models[k..][1..] == models[k + 1..];
      ghost var rest := ProviderStep(cat, i, s, models[k + 1..]);
      var e := Make(cat, i, s, s.ref, models[k]);
      assert out + ([e] + rest) == (out + [e]) + rest;
      out := out + [e];
    }
  }

  method TagNested(nested: seq<Expanded>, i: nat, w: int) returns (out: seq<Expanded>)
    ensures out == Retag(nested, i, w)
  {
    out := [];
    for j := 0 to |nested|
      invariant out == Retag(nested, i, w)[..j]
    {
      out := out + [nested[j].(step := i, weight := w)];
    }
  }

  ghost predicate ClearBelow(g: Graph, cat: Catalog, id: string, d: int) {
    DepthAtMost(g, id, d) && Resolves(g, id) && KnownBelow(g, cat, id)
  }

  /** Steps 0..n of a combo have expanded to `out`. */
  ghost predicate PartlyExpanded(g: Graph, cat: Catalog, id: string, budget: nat, n: nat, out: seq<Expanded>) {
    && budget > 0 && id in g && n <= |g[id].steps|
    && (forall j | 0 <= j < n :: StepKnown(cat, g[id].steps[j]))
    && (forall j | 0 <= j < n && IsRef(g[id].steps[j]) :: ClearBelow(g, cat, g[id].steps[j].ref, budget - 2))
    && (RoutesAreRoutes(g, id, budget); RoutesFromAreRoutes(g, id, n, budget);
        Flat(g, cat, id, Routes(g, id, budget)) == out + Flat(g, cat, id, RoutesFrom(g, id, n, budget)))
  }

  /** The candidates of one step are those of its routes. */
  lemma FlatStep(g: Graph, cat: Catalog, id: string, budget: nat, n: nat, more: seq<Expanded>)
    requires budget > 0 && id in g && n < |g[id].steps|
    requires StepMeaning(g, cat, g[id].steps[n], n, budget, more)
    ensures AllRoutes(g, id, StepRoutes(g, id, n, budget)) && Flat(g, cat, id, StepRoutes(g, id, n, budget)) == more
  {
    var s := g[id].steps[n];
    if IsRef(s) {
      RoutesAreRoutes(g, s.ref, budget - 1);
      FlatPrefixed(g, cat, id, n, Routes(g, s.ref, budget - 1));
    } else {
      LeafEmit(g, cat, id, n);
      assert [[n]] == [[n]] + [];
      FlatHead(g, cat, id, [n], []);
    }
  }

  ghost predicate StepMeaning(g: Graph, cat: Catalog, s: Step, n: nat, budget: nat, more: seq<Expanded>)
    requires budget > 0
  {
    if IsRef(s) then exists nested :: Expands(g, cat, s.ref, budget - 1, nested) && more == Retag(nested, n, s.WeightOrOne())
    else more == LeafStep(cat, n, s)
  }

  lemma StepExpanded(g: Graph, cat: Catalog, id: string, budget: nat, n: nat, out: seq<Expanded>, more: seq<Expanded>)
    requires PartlyExpanded(g, cat, id, budget, n, out) && n < |g[id].steps|
    requires StepKnown(cat, g[id].steps[n]) && StepMeaning(g, cat, g[id].steps[n], n, budget, more)
    ensures PartlyExpanded(g, cat, id, budget, n + 1, out + more)
  {
    FlatStep(g, cat, id, budget, n, more);
    FlatAdvance(g, cat, id, budget, n, out, more);
  }

  lemma FlatAdvance(g: Graph, cat: Catalog, id: string, budget: nat, n: nat, out: seq<Expanded>, more: seq<Expanded>)
    requires budget > 0 && id in g && n < |g[id].steps|
    requires AllRoutes(g, id, StepRoutes(g, id, n, budget)) && Flat(g, cat, id, StepRoutes(g, id, n, budget)) == more
    ensures AllRoutes(g, id, RoutesFrom(g, id, n, budget)) && AllRoutes(g, id, RoutesFrom(g, id, n + 1, budget))
    ensures out + Flat(g, cat, id, RoutesFrom(g, id, n, budget)) ==
            (out + more) + Flat(g, cat, id, RoutesFrom(g, id, n + 1, budget))
  {
    RoutesFromAreRoutes(g, id, n, budget);
    FlatConcat(g, cat, id, StepRoutes(g, id, n, budget), RoutesFrom(g, id, n + 1, budget));
  }

  lemma AllExpanded(g: Graph, cat: Catalog, id: string, budget: nat, out: seq<Expanded>)
    requires id in g && PartlyExpanded(g, cat, id, budget, |g[id].steps|, out)
    ensures Expands(g, cat, id, budget, out)
  {
    var steps := g[id].steps;
    forall r | Edge(g, id, r) ensures ClearBelow(g, cat, r, budget - 2) {
      var i :| 0 <= i < |steps| && IsRef(steps[i]) && steps[i].ref == r;
    }
    DepthFromChildren(g, id, budget - 1);
    forall p | PathFrom(g, id, p) && p[|p| - 1] in g ensures forall s | s in g[p[|p| - 1]].steps :: StepKnown(cat, s) {
      if |p| >= 2 {
        PathTail(g, p);
        assert p[|p| - 1] == p[1..][|p| - 2];
      }
    }
  }

  lemma UnknownBelow(g: Graph, cat: Catalog, p: seq<string>, s: Step)
    requires Path(g, p) && p[|p| - 1] in g && s in g[p[|p| - 1]].steps && !StepKnown(cat, s)
    ensures !KnownBelow(g, cat, p[0])
  {
    assert PathFrom(g, p[0], p);
  }

  class Expander {
    const byID: Graph
    const catalog: Catalog
    var chain: set<string>

    constructor (byID: Graph, catalog: Catalog)
      ensures this.byID == byID && this.catalog == catalog && chain == {}
    {
      this.byID, this.catalog, chain := byID, catalog, {};
    }

    /** `stack` is the reference path from the root down to, but without, this combo. */
    method Expand(combo: Combo, depth: nat, ghost stack: seq<string>) returns (r: Expansion)
      requires KeyedByID(byID) && combo.id in byID && byID[combo.id] == combo
      requires |stack| == depth && chain == Elems(stack) && Path(byID, stack + [combo.id])
      modifies this
      ensures chain == old(chain)
      ensures match r
              case Failure(e) => Blame(byID, catalog, (stack + [combo.id])[0], e)
              case Expansion(out) => depth <= MAX_DEPTH && Expands(byID, catalog, combo.id, MAX_DEPTH + 1 - depth, out)
      decreases if depth > MAX_DEPTH then 0 else MAX_DEPTH + 1 - depth, 2
    {
      ghost var here := stack + [combo.id];
      assert PathFrom(byID, here[0], here);
      if depth > MAX_DEPTH {
        return Failure(TooDeep(combo.name));
      }
      if combo.id in chain {
        ghost var k :| 0 <= k < |stack| && stack[k] == combo.id;
        assert here[k] == here[|stack|];
        return Failure(Cyclic(combo.name));
      }
      chain := chain + {combo.id};
      assert chain == Elems(here);
      r := ExpandSteps(combo, depth, stack);
      chain := chain - {combo.id};
    }

    method ExpandSteps(combo: Combo, depth: nat, ghost stack: seq<string>) returns (r: Expansion)
      requires KeyedByID(byID) && combo.id in byID && byID[combo.id] == combo
      requires |stack| == depth <= MAX_DEPTH && chain == Elems(stack + [combo.id]) && Path(byID, stack + [combo.id])
      modifies this
      ensures chain == old(chain)
      ensures match r
              case Failure(e) => Blame(byID, catalog, (stack + [combo.id])[0], e)
              case Expansion(out) => Expands(byID, catalog, combo.id, MAX_DEPTH + 1 - depth, out)
      decreases MAX_DEPTH + 1 - depth, 1
    {
      var out: seq<Expanded> := [];
      ghost var budget := MAX_DEPTH + 1 - depth;
      RoutesFromAreRoutes(byID, combo.id, 0, budget);
      for i := 0 to |combo.steps|
        invariant chain == old(chain)
        invariant PartlyExpanded(byID, catalog, combo.id, budget, i, out)
      {
        var more := ExpandStep(combo, i, depth, stack);
        if more.Failure? { return more; }
        StepExpanded(byID, catalog, combo.id, budget, i, out, more.candidates);
        out := out + more.candidates;
      }
      AllExpanded(byID, catalog, combo.id, budget, out);
      return Expansion(out);
    }

    method ExpandStep(combo: Combo, i: nat, depth: nat, ghost stack: seq<string>) returns (r: Expansion)
      requires KeyedByID(byID) && combo.id in byID && byID[combo.id] == combo && i < |combo.steps|
      requires |stack| == depth <= MAX_DEPTH && chain == Elems(stack + [combo.id]) && Path(byID, stack + [combo.id])
      modifies this
      ensures chain == old(chain)
      ensures match r
              case Failure(e) => Blame(byID, catalog, (stack + [combo.id])[0], e)
              case Expansion(more) =>
                var s := combo.steps[i];
                StepKnown(catalog, s) && StepMeaning(byID, catalog, s, i, MAX_DEPTH + 1 - depth, more)
      decreases MAX_DEPTH + 1 - depth, 0
    {
      var step := combo.steps[i];
      ghost var here := stack + [combo.id];
      assert PathFrom(byID, here[0], here) && here[|here| - 1] == combo.id;
      match step.kind {
        case StepModel =>
          var out := ExpandModel(catalog, i, step);
          return Expansion(out);
        case StepProviderWildcard =>
          if step.ref !in catalog.providers {
            UnknownBelow(byID, catalog, here, step);
            return Failure(NoProvider(combo.name, step.ref));
          }
          var out := ExpandProvider(catalog, i, step);
          return Expansion(out);
        case StepComboRef =>
          assert Edge(byID, combo.id, step.ref);
          PathExtend(byID, here, step.ref);
          assert PathFrom(byID, here[0], here + [step.ref]);
          if step.ref !in byID {
            assert (here + [step.ref])[|here|] == step.ref;
            return Failure(NoCombo(combo.name, step.ref));
          }
          r := Expand(byID[step.ref], depth + 1, here);
          if r.Failure? { return r; }
          var out := TagNested(r.candidates, i, step.WeightOrOne());
          return Expansion(out);
        case UnknownKind(k) =>
          UnknownBelow(byID, catalog, here, step);
          return Failure(NoKind(combo.name, k));
      }
    }
  }

  // --- what a request sees ---

  lemma {:induction false} DepthExists(g: Graph, id: string, n: nat) returns (d: nat)
    requires DepthAtMost(g, id, n)
    ensures d <= n && Longest(g, id, d)
  {
    assert PathFrom(g, id, [id]);
    if exists p :: PathFrom(g, id, p) && |p| - 1 == n {
      d := n;
    } else {
      d := DepthExists(g, id, n - 1);
    }
  }

  /** On any combo map, cyclic or not, expanding a combo from the top succeeds exactly when every reference below
      it resolves, every step is known and no reference path is longer than 8; it then lists the candidates of all
      reference routes in order. On failure the error names something that is really there; on an acyclic, resolved
      graph with known steps that can only be a path of more than 8 references. */
  method ExpandTop(byID: Graph, cat: Catalog, id: string) returns (r: Expansion)
    requires KeyedByID(byID) && id in byID
    ensures r.Expansion? <==> ClearBelow(byID, cat, id, MAX_DEPTH)
    ensures r.Expansion? ==> Expands(byID, cat, id, MAX_DEPTH + 1, r.candidates)
    ensures r.Failure? ==> Blame(byID, cat, id, r.error)
    ensures AcyclicFrom(byID, id) && Resolves(byID, id) && KnownBelow(byID, cat, id) ==>
              (r.Failure? && r.error.TooDeep? <==> exists p :: PathFrom(byID, id, p) && |p| - 1 > MAX_DEPTH)
              && (r.Failure? ==> r.error.TooDeep?)
  {
    var e := new Expander(byID, cat);
    assert [] + [id] == [id];
    r := e.Expand(byID[id], 0, []);
    if r.Failure? { BlameIsReal(byID, cat, id, r.error); }
  }

  lemma BlameIsReal(g: Graph, cat: Catalog, id: string, e: ExpandError)
    requires Blame(g, cat, id, e)
    ensures !ClearBelow(g, cat, id, MAX_DEPTH)
  {
    if DepthAtMost(g, id, MAX_DEPTH) { BoundedIsAcyclic(g, id, MAX_DEPTH); }
  }

  /** The candidates are those of every route below the combo, each route once, in lexicographic order of the step
      indices; a candidate carries the index and weight of the top-level step its route starts with. */
  lemma ExpansionIsFlattening(g: Graph, cat: Catalog, id: string, out: seq<Expanded>) returns (routes: seq<seq<nat>>)
    requires Expands(g, cat, id, MAX_DEPTH + 1, out)
    ensures AllRoutes(g, id, routes) && InOrder(routes)
    ensures forall route | IsRoute(g, id, route) :: route in routes
    ensures out == Flat(g, cat, id, routes)
  {
    routes := Routes(g, id, MAX_DEPTH + 1);
    RoutesAreRoutes(g, id, MAX_DEPTH + 1);
    RoutesInOrder(g, id, MAX_DEPTH + 1);
    forall route | IsRoute(g, id, route) ensures route in routes {
      var p := RouteLength(g, id, route);
      ShortRoutesListed(g, id, MAX_DEPTH + 1, route);
    }
  }

  /** The two independent checks agree: where the catalog knows every step, the request-time expansion of a combo
      succeeds exactly when the save-time search would accept the graph below it. */
  lemma SaveAndRequestAgree(g: Graph, cat: Catalog, id: string)
    requires KnownBelow(g, cat, id)
    ensures (exists d :: SoundFrom(g, id, d)) <==> ClearBelow(g, cat, id, MAX_DEPTH)
  {
    if DepthAtMost(g, id, MAX_DEPTH) && Resolves(g, id) {
      BoundedIsAcyclic(g, id, MAX_DEPTH);
      var d := DepthExists(g, id, MAX_DEPTH);
      assert SoundFrom(g, id, d);
    }
  }

  /** Right after an accepted save under its own name, the stored combo expands. */
  lemma SavedComboExpands(rows: Graph, c: Combo, insert: bool, providers: Option<ProviderSet>, d: int, cat: Catalog)
    requires ComboStore.Writes(rows, c, insert, providers, d) && c.id == c.name
    requires KnownBelow(rows[c.name := ComboStore.Persisted(c, d)], cat, c.name)
    ensures ClearBelow(rows[c.name := ComboStore.Persisted(c, d)], cat, c.name, MAX_DEPTH)
  {
    var h, rows' := rows[c.name := c], rows[c.name := ComboStore.Persisted(c, d)];
    assert Searched(c, ComboStore.Existing(rows, c, !insert)) == h;
    forall p | PathFrom(rows', c.name, p) ensures |p| - 1 <= MAX_DEPTH && p[|p| - 1] in rows' {
      SameStepsSamePaths(h, rows', p);
      assert PathFrom(h, c.name, p);
    }
  }
}
