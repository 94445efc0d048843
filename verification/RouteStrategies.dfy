/** All ten strategies behind one resolve (internal/router/resolver.go, strategies_sequential.go,
    strategies_structural.go): what every order has in common, and what demotion makes of it. */
module RouteStrategies {
  import opened StableSorting
  import opened RouteOrder
  import opened RouteGroups
  import opened RouteTurns
  import opened RouteDraws

  /** What the strategies consult besides the candidates. */
  datatype Env = Env(combo: string, rng: Option<Rng>, pressure: Expanded -> real, price: Expanded -> Price,
                     score: Expanded -> real, accounts: Expanded -> seq<string>)

  ghost predicate Ready(env: Env, xs: seq<Expanded>) {
    (env.rng.Some? ==> Sound(env.rng.value)) && forall e | e in xs :: e.weight >= 1
  }

  /** `order` is what strategy `kind` makes of xs when the cursors stand at `turns` and `fills`. */
  ghost predicate Orders(kind: Kind, env: Env, turns: Turns, fills: Turns, xs: seq<Expanded>, order: seq<Cand>)
    requires Ready(env, xs)
  {
    match kind
    case Priority | Fallback | Fusion | Pipeline => order == Cands(StableSort(ByStep(), xs))
    case Cost => order == Cands(StableSort(ByCost(env.price), xs))
    case Auto => order == Cands(StableSort(ByScore(env.score), xs))
    case RoundRobin => RoundRobinOrders(turns, env.combo, xs, order)
    case Weighted => BaseMembers(xs); order == Picked(Base(xs), DrawOrder(Weights(Base(xs)), env.rng))
    case P2C => order == Picked(Base(xs), P2COrder(|xs|, env.rng, PressureAt(Base(xs), env.pressure)))
    case FillFirst => order == FilledFrom(fills, StableSort(ByProvider(), xs), env.accounts).0
  }

  ghost predicate RoundRobinOrders(turns: Turns, combo: string, xs: seq<Expanded>, order: seq<Cand>) {
    exists groups: seq<seq<Expanded>>, steps: seq<int> ::
      IsTiering(groups, steps, xs) && order == Flatten(AllTurns(turns, combo, steps, groups))
  }

  ghost predicate IsTiering(groups: seq<seq<Expanded>>, steps: seq<int>, xs: seq<Expanded>) {
    IsGrouping(groups, steps, xs, StepAt()) && forall i | 0 <= i < |steps| :: steps[i] >= 0
  }

  /** The strategy's turn under the resolver's lock. */
  method Order(kind: Kind, env: Env, cursor: Cursor, xs: seq<Expanded>) returns (order: seq<Cand>)
    requires Ready(env, xs)
    modifies cursor
    ensures Orders(kind, env, old(cursor.roundRobin), old(cursor.fillFirst), xs, order)
    ensures !kind.RoundRobin? ==> cursor.roundRobin == old(cursor.roundRobin)
    ensures !kind.FillFirst? ==> cursor.fillFirst == old(cursor.fillFirst)
  {
    match kind
    case Priority | Fallback | Fusion | Pipeline => order := OrderBy(ByStep(), xs);
    case Cost => order := OrderBy(ByCost(env.price), xs);
    case Auto => order := OrderBy(ByScore(env.score), xs);
    case RoundRobin =>
      ghost var groups, steps;
      order, groups, steps := cursor.RoundRobin(env.combo, xs);
      assert IsTiering(groups, steps, xs);
    case Weighted => order := WeightedOrder(xs, env.rng);
    case P2C => order := PowerOfTwo(xs, env.rng, env.pressure);
    case FillFirst => order := cursor.FillFirst(xs, env.accounts);
  }

  lemma DrawsPermute(env: Env, xs: seq<Expanded>)
    requires Ready(env, xs)
    ensures (forall e | e in Base(xs) :: e.weight >= 1)
    ensures multiset(Picked(Base(xs), DrawOrder(Weights(Base(xs)), env.rng))) == multiset(Cands(xs))
    ensures multiset(Picked(Base(xs), P2COrder(|xs|, env.rng, PressureAt(Base(xs), env.pressure)))) == multiset(Cands(xs))
  {
    BaseMembers(xs);
    DrawOrderIsPermutation(Weights(Base(xs)), env.rng);
    PickedIsPermutation(xs, DrawOrder(Weights(Base(xs)), env.rng));
    P2COrderIsPermutation(|xs|, env.rng, PressureAt(Base(xs), env.pressure));
    PickedIsPermutation(xs, P2COrder(|xs|, env.rng, PressureAt(Base(xs), env.pressure)));
  }

  lemma BareOrderIsPermutation(kind: Kind, env: Env, turns: Turns, fills: Turns, xs: seq<Expanded>, order: seq<Cand>)
    requires Ready(env, xs) && Orders(kind, env, turns, fills, xs, order) && !kind.FillFirst?
    ensures multiset(order) == multiset(Cands(xs))
  {
    match kind
    case Priority | Fallback | Fusion | Pipeline => OrderIsPermutation(ByStep(), xs);
    case Cost => OrderIsPermutation(ByCost(env.price), xs);
    case Auto => OrderIsPermutation(ByScore(env.score), xs);
    case RoundRobin =>
      var groups: seq<seq<Expanded>>, steps: seq<int> :|
        IsTiering(groups, steps, xs) && order == Flatten(AllTurns(turns, env.combo, steps, groups));
      RoundRobinIsPermutation(turns, env.combo, xs, groups, steps);
    case Weighted => DrawsPermute(env, xs);
    case P2C => DrawsPermute(env, xs);
  }

  /** No strategy drops, repeats or invents a candidate; fill-first only writes accounts in. */
  lemma EveryOrderIsPermutation(kind: Kind, env: Env, turns: Turns, fills: Turns, xs: seq<Expanded>, order: seq<Cand>)
    requires Ready(env, xs) && Orders(kind, env, turns, fills, xs, order)
    ensures multiset(Uncredited(order)) == multiset(Cands(xs))
    ensures !kind.FillFirst? ==> multiset(order) == multiset(Cands(xs)) && Uncredited(order) == order
  {
    if kind.FillFirst? {
      FillFirstIsPermutation(fills, xs, env.accounts);
    } else {
      BareOrderIsPermutation(kind, env, turns, fills, xs, order);
      BareOrder(order, xs);
    }
  }

  lemma BareOrder(order: seq<Cand>, xs: seq<Expanded>)
    requires multiset(order) == multiset(Cands(xs))
    ensures Uncredited(order) == order
  {
    forall i | 0 <= i < |order| ensures order[i].credential == "" {
      assert order[i] in multiset(Cands(xs));
      assert order[i] in Cands(xs);
    }
  }

  /** Demotion rearranges. */
  lemma DemotedIsPermutation(order: seq<Cand>, xs: seq<Expanded>)
    ensures multiset(Demoted(order, xs)) == multiset(order)
    ensures multiset(Uncredited(Demoted(order, xs))) == multiset(Uncredited(order))
  {
    var bare := (c: Cand) => c.(credential := "");
    KeepSplits(Fits(CompatOf(xs)), order);
    MappedMultiset(bare, Demoted(order, xs), order);
    assert Uncredited(order) == Mapped(bare, order) && Uncredited(Demoted(order, xs)) == Mapped(bare, Demoted(order, xs));
  }

  /** Without credentials nothing escapes demotion. */
  lemma BareSuitsFirst(order: seq<Cand>, xs: seq<Expanded>)
    requires Uncredited(order) == order
    ensures SuitableFirst(xs, Demoted(order, xs))
  {
    var fits := Fits(CompatOf(xs));
    var r := (c: Cand, d: Cand) => Suits(xs)(d) ==> Suits(xs)(c);
    var a, b := Keep(fits, order), Keep(Not(fits), order);
    forall c | c in order ensures Suits(xs)(c) == fits(c) {
      var i :| 0 <= i < |order| && order[i] == c;
      assert Uncredited(order)[i].credential == "";
    }
    forall c | c in a ensures Suits(xs)(c) { KeepMembers(fits, order, c); }
    forall c | c in b ensures !Suits(xs)(c) { KeepMembers(Not(fits), order, c); }
    PairwiseConcat(r, a, b);
  }

  /** For all ten strategies: what a resolve puts out, order and demotion together, is exactly the survivors of the
      preflight, up to the accounts fill-first writes in; and for all but fill-first no incompatible candidate stands
      before a compatible one. */
  lemma EveryStrategyKeepsSurvivors(kind: Kind, env: Env, turns: Turns, fills: Turns, xs: seq<Expanded>, order: seq<Cand>)
    requires Ready(env, xs) && Orders(kind, env, turns, fills, xs, order)
    ensures multiset(Uncredited(Demoted(order, xs))) == multiset(Cands(xs))
    ensures !kind.FillFirst? ==> multiset(Demoted(order, xs)) == multiset(Cands(xs)) && SuitableFirst(xs, Demoted(order, xs))
  {
    EveryOrderIsPermutation(kind, env, turns, fills, xs, order);
    DemotedIsPermutation(order, xs);
    if !kind.FillFirst? { BareSuitsFirst(order, xs); }
  }

  /** Resolve of a combo with a linear strategy, from the survivors of the preflight on. */
  method ResolveLinear(kind: Kind, combo: string, env: Env, cursor: Cursor, xs: seq<Expanded>)
    returns (r: Resolved, ghost order: seq<Cand>)
    requires Ready(env, xs) && !kind.Fusion? && !kind.Pipeline?
    modifies cursor
    ensures Orders(kind, env, old(cursor.roundRobin), old(cursor.fillFirst), xs, order)
    ensures r == if xs == [] then Failed(NoCandidate)
                 else Resolved(Plan(combo, kind, Demoted(order, xs), |xs|, [], None, []))
    ensures r.Resolved? ==> multiset(Uncredited(r.plan.attempts)) == multiset(Cands(xs))
  {
    var sorted := Order(kind, env, cursor, xs);
    order := sorted;
    var out := Demote(sorted, xs);
    EveryStrategyKeepsSurvivors(kind, env, old(cursor.roundRobin), old(cursor.fillFirst), xs, order);
    if xs == [] {
      assert |multiset(Uncredited(out))| == 0;
    } else {
      assert Cands(xs)[0] in multiset(Uncredited(out));
    }
    if out == [] {
      return Failed(NoCandidate), order;
    }
    return Resolved(Plan(combo, kind, out, |xs|, [], None, [])), order;
  }
}
