/** Which (provider, model) pairs a combo expands to, in what order and with what attached: every candidate traced
    to the step that names it (internal/router/expand.go). */
module ExpansionSources {
  import opened ByteStrings
  import opened ComboGraph
  import opened ComboExpand

  /** Where a candidate comes from: the route to the step that names it, and its place in the list of registered
      providers (a model step) or in the provider's list of models (a wildcard). */
  datatype Source = Source(route: seq<nat>, at: nat)

  ghost predicate Names(cat: Catalog, s: Step, at: nat) {
    match s.kind
    case StepModel => at < |cat.providers| && cat.declares(cat.providers[at], s.ref)
    case StepProviderWildcard => at < |cat.models(s.ref)|
    case StepComboRef => false
    case UnknownKind(_) => false
  }

  ghost function ProviderAt(cat: Catalog, s: Step, at: nat): string
    requires Names(cat, s, at)
  {
    if s.kind.StepModel? then cat.providers[at] else s.ref
  }

  ghost function ModelAt(cat: Catalog, s: Step, at: nat): string
    requires Names(cat, s, at)
  {
    if s.kind.StepModel? then s.ref else cat.models(s.ref)[at]
  }

  ghost predicate Offers(g: Graph, cat: Catalog, id: string, o: Source) {
    IsRoute(g, id, o.route) && Names(cat, LeafOf(g, id, o.route), o.at)
  }

  ghost predicate Earlier(a: Source, b: Source) {
    Before(a.route, b.route) || (a.route == b.route && a.at < b.at)
  }

  /** Everything a candidate carries: the pair its source names, the index and weight of the top-level step, the
      credentials and the quota flag of the naming step, and the fit of the pair. */
  ghost predicate Describes(g: Graph, cat: Catalog, id: string, o: Source, e: Expanded)
    requires Offers(g, cat, id, o)
  {
    var top, s := g[id].steps[o.route[0]], LeafOf(g, id, o.route);
    && e.provider == ProviderAt(cat, s, o.at)
    && e.model == ModelAt(cat, s, o.at)
    && e.step == o.route[0]
    && e.weight == (if top.weight <= 0 then 1 else top.weight)
    && e.allowed == s.allowed
    && e.onlyOnQuota == s.onlyOnQuota
    && e.compatible == cat.fits(e.provider, e.model)
  }

  ghost predicate Ascending(at: seq<nat>) {
    forall a, b :: 0 <= a < b < |at| ==> at[a] < at[b]
  }

  ghost predicate AllEarlier(src: seq<Source>) {
    forall a, b :: 0 <= a < b < |src| ==> Earlier(src[a], src[b])
  }

  // --- one step ---

  /** `e` is what the step offers at position `at`, apart from the tag of the top-level step. */
  ghost predicate NamedAt(cat: Catalog, s: Step, at: nat, e: Expanded) {
    && Names(cat, s, at)
    && e.provider == ProviderAt(cat, s, at) && e.model == ModelAt(cat, s, at)
    && e.allowed == s.allowed && e.onlyOnQuota == s.onlyOnQuota
    && e.compatible == cat.fits(e.provider, e.model)
  }

  lemma {:induction false} ModelPlaces(cat: Catalog, s: Step, j: nat) returns (at: seq<nat>)
    requires s.kind.StepModel? && j <= |cat.providers|
    ensures Ascending(at) && forall k :: k in at <==> j <= k && Names(cat, s, k)
    ensures |at| == |ModelStep(cat, 0, s, cat.providers[j..])|
    ensures forall k | 0 <= k < |at| :: NamedAt(cat, s, at[k], ModelStep(cat, 0, s, cat.providers[j..])[k])
    decreases |cat.providers| - j
  {
    if j == |cat.providers| {
      at := [];
    } else {
      var rest := ModelPlaces(cat, s, j + 1);
      assert cat.providers[j..][1..] == cat.providers[j + 1..];
      at := (if cat.declares(cat.providers[j], s.ref) then [j] else []) + rest;
      forall k ensures k in at <==> j <= k && Names(cat, s, k) {
        assert k in at <==> k in rest || (k == j && cat.declares(cat.providers[j], s.ref));
      }
      forall a, b | 0 <= a < b < |at| ensures at[a] < at[b] {
        if cat.declares(cat.providers[j], s.ref) { assert at[b] in rest; }
      }
    }
  }

  lemma {:induction false} ModelListPlaces(cat: Catalog, s: Step, j: nat) returns (at: seq<nat>)
    requires s.kind.StepProviderWildcard? && j <= |cat.models(s.ref)|
    ensures Ascending(at) && forall k :: k in at <==> j <= k && Names(cat, s, k)
    ensures |at| == |ProviderStep(cat, 0, s, cat.models(s.ref)[j..])|
    ensures forall k | 0 <= k < |at| :: NamedAt(cat, s, at[k], ProviderStep(cat, 0, s, cat.models(s.ref)[j..])[k])
    decreases |cat.models(s.ref)| - j
  {
    var models := cat.models(s.ref);
    if j == |models| {
      at := [];
    } else {
      var rest := ModelListPlaces(cat, s, j + 1);
      assert models[j..][1..] == models[j + 1..];
      at := [j] + rest;
      forall k ensures k in at <==> j <= k && Names(cat, s, k) {
        assert k in at <==> k in rest || k == j;
      }
      forall a, b | 0 <= a < b < |at| ensures at[a] < at[b] {
        assert at[b] in rest;
      }
    }
  }

  lemma StepPlaces(cat: Catalog, s: Step) returns (at: seq<nat>)
    ensures Ascending(at) && forall k :: k in at <==> Names(cat, s, k)
    ensures |at| == |LeafStep(cat, 0, s)|
    ensures forall k | 0 <= k < |at| :: NamedAt(cat, s, at[k], LeafStep(cat, 0, s)[k])
  {
    match s.kind {
      case StepModel =>
        assert cat.providers[0..] == cat.providers;
        at := ModelPlaces(cat, s, 0);
      case StepProviderWildcard =>
        assert cat.models(s.ref)[0..] == cat.models(s.ref);
        at := ModelListPlaces(cat, s, 0);
      case StepComboRef => at := [];
      case UnknownKind(_) => at := [];
    }
  }

  // --- all routes ---

  ghost predicate Traces(g: Graph, cat: Catalog, id: string, src: seq<Source>, out: seq<Expanded>) {
    && |src| == |out|
    && (forall k | 0 <= k < |src| :: Offers(g, cat, id, src[k]) && Describes(g, cat, id, src[k], out[k]))
  }

  lemma RouteSources(g: Graph, cat: Catalog, id: string, route: seq<nat>) returns (src: seq<Source>)
    requires IsRoute(g, id, route)
    ensures Traces(g, cat, id, src, Emit(g, cat, id, route)) && AllEarlier(src)
    ensures forall o :: o in src <==> Offers(g, cat, id, o) && o.route == route
  {
    var s := LeafOf(g, id, route);
    var at := StepPlaces(cat, s);
    src := seq(|at|, k requires 0 <= k < |at| => Source(route, at[k]));
    forall o ensures o in src <==> Offers(g, cat, id, o) && o.route == route {
      if Offers(g, cat, id, o) && o.route == route {
        var k :| 0 <= k < |at| && at[k] == o.at;
        assert src[k] == o;
      }
    }
    var out := Emit(g, cat, id, route);
    forall k | 0 <= k < |src| ensures Offers(g, cat, id, src[k]) && Describes(g, cat, id, src[k], out[k]) {
      assert NamedAt(cat, s, at[k], LeafStep(cat, 0, s)[k]);
    }
  }

  lemma TracesConcat(g: Graph, cat: Catalog, id: string, src: seq<Source>, out: seq<Expanded>,
                     more: seq<Source>, rest: seq<Expanded>)
    requires Traces(g, cat, id, src, out) && Traces(g, cat, id, more, rest)
    ensures Traces(g, cat, id, src + more, out + rest)
  {
  }

  /** What a route offers comes before what the later routes offer. */
  lemma EarlierConcat(route: seq<nat>, routes: seq<seq<nat>>, head: seq<Source>, tail: seq<Source>)
    requires InOrder([route] + routes) && AllEarlier(head) && AllEarlier(tail)
    requires forall o | o in head :: o.route == route
    requires forall o | o in tail :: o.route in routes
    ensures AllEarlier(head + tail)
  {
    var src := head + tail;
    forall a, b | 0 <= a < b < |src| ensures Earlier(src[a], src[b]) {
      if a < |head| <= b {
        assert src[a] in head && src[b] in tail;
        var k :| 0 <= k < |routes| && routes[k] == src[b].route;
        var all := [route] + routes;
        assert Before(all[0], all[k + 1]);
      }
    }
  }

  lemma RoutesSplit(routes: seq<seq<nat>>)
    requires routes != [] && InOrder(routes)
    ensures routes == [routes[0]] + routes[1..] && InOrder(routes[1..])
    ensures forall r :: r in routes <==> r == routes[0] || r in routes[1..]
  {
    var rest := routes[1..];
    forall a, b | 0 <= a < b < |rest| ensures Before(rest[a], rest[b]) {
      assert rest[a] == routes[a + 1] && rest[b] == routes[b + 1];
    }
  }

  lemma {:induction false} RoutesSources(g: Graph, cat: Catalog, id: string, routes: seq<seq<nat>>)
    returns (src: seq<Source>)
    requires AllRoutes(g, id, routes) && InOrder(routes)
    ensures Traces(g, cat, id, src, Flat(g, cat, id, routes)) && AllEarlier(src)
    ensures forall o :: o in src <==> Offers(g, cat, id, o) && o.route in routes
  {
    if routes == [] {
      src := [];
    } else {
      RoutesSplit(routes);
      var head := RouteSources(g, cat, id, routes[0]);
      var tail := RoutesSources(g, cat, id, routes[1..]);
      src := head + tail;
      TracesConcat(g, cat, id, head, Emit(g, cat, id, routes[0]), tail, Flat(g, cat, id, routes[1..]));
      EarlierConcat(routes[0], routes[1..], head, tail);
    }
  }

  /** Every candidate of an expansion comes from one place: a route to a model step and a registered provider that
      declares the model, or a route to a wildcard and one of the provider's models. Every such place gives exactly
      one candidate, they stand in the order of the routes and then of the providers or models, and each carries what
      Describes says. */
  lemma ExpansionHasSources(g: Graph, cat: Catalog, id: string, out: seq<Expanded>) returns (src: seq<Source>)
    requires Expands(g, cat, id, MAX_DEPTH + 1, out)
    ensures Traces(g, cat, id, src, out) && AllEarlier(src)
    ensures forall o :: o in src <==> Offers(g, cat, id, o)
  {
    var routes := ExpansionIsFlattening(g, cat, id, out);
    src := RoutesSources(g, cat, id, routes);
  }

  /** The step names the pair: a model step for the model that the registered provider declares, or a wildcard of the
      provider that has the model. */
  ghost predicate NamesPair(cat: Catalog, s: Step, provider: string, model: string) {
    || (s.kind.StepModel? && s.ref == model && provider in cat.providers && cat.declares(provider, model))
    || (s.kind.StepProviderWildcard? && s.ref == provider && model in cat.models(provider))
  }

  lemma PairHasPlace(cat: Catalog, s: Step, provider: string, model: string) returns (at: nat)
    requires NamesPair(cat, s, provider, model)
    ensures Names(cat, s, at) && ProviderAt(cat, s, at) == provider && ModelAt(cat, s, at) == model
  {
    if s.kind.StepModel? {
      at :| 0 <= at < |cat.providers| && cat.providers[at] == provider;
    } else {
      at :| 0 <= at < |cat.models(provider)| && cat.models(provider)[at] == model;
    }
  }

  lemma CandidateHasRoute(g: Graph, cat: Catalog, id: string, o: Source, e: Expanded)
    requires Offers(g, cat, id, o) && Describes(g, cat, id, o, e)
    ensures NamesPair(cat, LeafOf(g, id, o.route), e.provider, e.model)
  {
  }

  lemma NamedPairListed(g: Graph, cat: Catalog, id: string, route: seq<nat>, provider: string, model: string,
                        src: seq<Source>, out: seq<Expanded>)
    returns (k: nat)
    requires IsRoute(g, id, route) && NamesPair(cat, LeafOf(g, id, route), provider, model)
    requires Traces(g, cat, id, src, out) && forall o | Offers(g, cat, id, o) :: o in src
    ensures k < |out| && out[k].provider == provider && out[k].model == model
  {
    var at := PairHasPlace(cat, LeafOf(g, id, route), provider, model);
    var o := Source(route, at);
    assert Offers(g, cat, id, o);
    k :| k < |src| && src[k] == o;
  }

  ghost predicate Lists(out: seq<Expanded>, provider: string, model: string) {
    exists e | e in out :: e.provider == provider && e.model == model
  }

  /** The last step of some route below the combo names the pair. */
  ghost predicate NamedBelow(g: Graph, cat: Catalog, id: string, provider: string, model: string) {
    exists route | IsRoute(g, id, route) :: NamesPair(cat, LeafOf(g, id, route), provider, model)
  }

  lemma ListedIsNamed(g: Graph, cat: Catalog, id: string, src: seq<Source>, out: seq<Expanded>,
                      provider: string, model: string)
    requires Traces(g, cat, id, src, out) && Lists(out, provider, model)
    ensures NamedBelow(g, cat, id, provider, model)
  {
    var e :| e in out && e.provider == provider && e.model == model;
    var k :| 0 <= k < |out| && out[k] == e;
    CandidateHasRoute(g, cat, id, src[k], e);
    assert IsRoute(g, id, src[k].route);
  }

  /** A pair is among the candidates exactly when the last step of some route names it. */
  lemma ExpandsToIff(g: Graph, cat: Catalog, id: string, out: seq<Expanded>, provider: string, model: string)
    requires Expands(g, cat, id, MAX_DEPTH + 1, out)
    ensures Lists(out, provider, model) <==> NamedBelow(g, cat, id, provider, model)
  {
    var src := ExpansionHasSources(g, cat, id, out);
    if Lists(out, provider, model) {
      ListedIsNamed(g, cat, id, src, out, provider, model);
    }
    if NamedBelow(g, cat, id, provider, model) {
      var route :| IsRoute(g, id, route) && NamesPair(cat, LeafOf(g, id, route), provider, model);
      var k := NamedPairListed(g, cat, id, route, provider, model, src, out);
      assert out[k] in out;
    }
  }
}
