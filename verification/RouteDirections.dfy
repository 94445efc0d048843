/** Which way each strategy orders (internal/router/strategies_sequential.go, strategies_structural.go): what may stand
    before what in every order a resolve makes, and still after demotion. */
module RouteDirections {
  import B = ByteStrings
  import ComboExpand
  import opened StableSorting
  import opened RouteOrder
  import opened RouteGroups
  import opened RouteTurns
  import opened RouteDraws
  import opened RouteStrategies

  predicate KeyUpTo(a: Expanded, b: Expanded) { B.Le(StableKey(CandOf(a)), StableKey(CandOf(b))) }

  /** a may stand before b. By step, then key: priority, fallback, fusion, pipeline. Cheapest first and unpriced last,
      best score first, ties by key. Round-robin keeps the steps apart, fill-first the steps and then the providers.
      Without a random source the weighted strategy puts the heaviest first and power of two goes by key. */
  predicate MayPrecede(kind: Kind, env: Env, a: Expanded, b: Expanded) {
    match kind
    case Priority | Fallback | Fusion | Pipeline => a.step < b.step || (a.step == b.step && KeyUpTo(a, b))
    case Cost =>
      (match env.price(a)
       case Known(x) => env.price(b) == Unpriced || x < env.price(b).micros || (x == env.price(b).micros && KeyUpTo(a, b))
       case Unpriced => env.price(b) == Unpriced && KeyUpTo(a, b))
    case Auto => env.score(a) > env.score(b) || (env.score(a) == env.score(b) && KeyUpTo(a, b))
    case RoundRobin => a.step <= b.step
    case FillFirst =>
      a.step < b.step || (a.step == b.step && (Less(a.provider, b.provider) || (a.provider == b.provider && KeyUpTo(a, b))))
    case Weighted => env.rng.None? ==> a.weight > b.weight || (a.weight == b.weight && KeyUpTo(a, b))
    case P2C => env.rng.None? ==> KeyUpTo(a, b)
  }

  function Direction(kind: Kind, env: Env): (Expanded, Expanded) -> bool { (a, b) => MayPrecede(kind, env, a, b) }

  ghost predicate Transitive<T(!new)>(p: (T, T) -> bool) { forall x, y, z :: p(x, y) && p(y, z) ==> p(x, z) }

  lemma KeysAreOrdered()
    ensures forall a, b :: KeyUpTo(a, b) || KeyUpTo(b, a)
    ensures forall a, b, c :: KeyUpTo(a, b) && KeyUpTo(b, c) ==> KeyUpTo(a, c)
    ensures forall s, t, u :: Less(s, t) && Less(t, u) ==> Less(s, u)
    ensures forall s, t :: Less(s, t) || Less(t, s) || s == t
  {
    forall s: string, t: string ensures B.Le(s, t) || B.Le(t, s) { B.LeTotal(s, t); }
    forall s, t | B.Le(s, t) && B.Le(t, s) ensures s == t { B.LeAntisymmetric(s, t); }
    forall s, t, u | B.Le(s, t) && B.Le(t, u) ensures B.Le(s, u) { B.LeTransitive(s, t, u); }
  }

  lemma DirectionIsTransitive(kind: Kind, env: Env)
    ensures Transitive(Direction(kind, env))
  {
    KeysAreOrdered();
  }

  // --- sorting ---

  /** Two elements in this order stay or swap as p wants. */
  ghost predicate Suited<T>(less: (T, T) -> bool, p: (T, T) -> bool, x: T, y: T) {
    if less(y, x) then p(y, x) else p(x, y)
  }

  lemma {:induction false} InsertDirected<T(!new)>(less: (T, T) -> bool, p: (T, T) -> bool, x: T, r: seq<T>)
    requires Transitive(p) && Pairwise(p, r) && forall y | y in r :: Suited(less, p, x, y)
    ensures Pairwise(p, Insert(less, x, r))
  {
    if r != [] && less(r[0], x) {
      var rest := r[1..];
      assert forall i | 0 <= i < |rest| :: rest[i] == r[i + 1];
      InsertDirected(less, p, x, rest);
      InsertPermutes(less, x, rest);
      var tail := Insert(less, x, rest);
      forall y | y in tail ensures p(r[0], y) {
        assert y in multiset(tail);
        assert y == x || y in rest;
        assert Suited(less, p, x, r[0]);
      }
      PairwiseConcat(p, [r[0]], tail);
    } else {
      forall y | y in r ensures p(x, y) {
        assert Suited(less, p, x, r[0]);
      }
      PairwiseConcat(p, [x], r);
    }
  }

  lemma {:induction false} SortDirected<T(!new)>(less: (T, T) -> bool, p: (T, T) -> bool, s: seq<T>)
    requires Transitive(p) && forall i, j | 0 <= i < j < |s| :: Suited(less, p, s[i], s[j])
    ensures Pairwise(p, StableSort(less, s))
  {
    if s != [] {
      var rest := s[1..];
      assert forall i | 0 <= i < |rest| :: rest[i] == s[i + 1];
      SortDirected(less, p, rest);
      SortPermutes(less, rest);
      forall y | y in StableSort(less, rest) ensures Suited(less, p, s[0], y) {
        assert y in multiset(StableSort(less, rest));
        var j :| 0 <= j < |rest| && rest[j] == y;
        assert Suited(less, p, s[0], s[j + 1]);
      }
      InsertDirected(less, p, s[0], StableSort(less, rest));
    }
  }

  /** The strategies that sort and render. */
  lemma SortedDirected(kind: Kind, env: Env, less: (Expanded, Expanded) -> bool, xs: seq<Expanded>)
    returns (rows: seq<Expanded>)
    requires forall x, y :: Suited(less, Direction(kind, env), x, y)
    ensures rows == StableSort(less, xs) && multiset(rows) == multiset(xs) && Pairwise(Direction(kind, env), rows)
  {
    rows := StableSort(less, xs);
    SortPermutes(less, xs);
    DirectionIsTransitive(kind, env);
    SortDirected(less, Direction(kind, env), xs);
  }

  lemma StepSuits(kind: Kind, env: Env, x: Expanded, y: Expanded)
    requires kind in {Priority, Fallback, Fusion, Pipeline}
    ensures Suited(ByStep(), Direction(kind, env), x, y)
  {
    KeysAreOrdered();
    assert Ties(StepLess(), y, x) <==> x.step == y.step;
  }

  lemma CostSuits(env: Env, x: Expanded, y: Expanded)
    ensures Suited(ByCost(env.price), Direction(Cost, env), x, y)
  {
    KeysAreOrdered();
    assert Ties(Cheaper(env.price), y, x) <==> env.price(x) == env.price(y);
  }

  lemma ScoreSuits(env: Env, x: Expanded, y: Expanded)
    ensures Suited(ByScore(env.score), Direction(Auto, env), x, y)
  {
    KeysAreOrdered();
    assert Ties(Higher(env.score), y, x) <==> env.score(x) == env.score(y);
  }

  lemma ProviderSuits(env: Env, x: Expanded, y: Expanded)
    ensures Suited(ByProvider(), Direction(FillFirst, env), x, y)
  {
    KeysAreOrdered();
    assert Ties(StepLess(), y, x) <==> x.step == y.step;
    assert Ties(ProviderLess(), y, x) <==> x.provider == y.provider;
  }

  // --- drawing without a random source ---

  const NOBODY := ComboExpand.Expanded("", "", 0, 1, [], false, false)

  function RowAt(group: seq<Expanded>): nat -> Expanded { (i: nat) => if i < |group| then group[i] else NOBODY }

  /** A rearrangement of the positions picks a rearrangement of the rows. */
  lemma PickedRows(xs: seq<Expanded>, picks: seq<nat>) returns (rows: seq<Expanded>)
    requires multiset(picks) == multiset(Indices(|xs|))
    ensures rows == Mapped(RowAt(Base(xs)), picks)
    ensures multiset(rows) == multiset(xs) && Picked(Base(xs), picks) == Cands(rows)
  {
    var group := Base(xs);
    rows := Mapped(RowAt(group), picks);
    PositionsInRange(picks, |xs|);
    MappedMultiset(RowAt(group), picks, Indices(|xs|));
    assert Mapped(RowAt(group), Indices(|xs|)) == group;
    SortPermutes(ByKey(), xs);
  }

  /** The base order of a draw: the candidates by key. */
  ghost predicate ByKeys(group: seq<Expanded>, xs: seq<Expanded>) {
    multiset(group) == multiset(xs) && forall a, b :: 0 <= a < b < |group| ==> KeyUpTo(group[a], group[b])
  }

  lemma BaseIsByKeys(xs: seq<Expanded>)
    ensures ByKeys(Base(xs), xs)
  {
    var p := (a, b) => KeyUpTo(a, b);
    SortPermutes(ByKey(), xs);
    KeysAreOrdered();
    SortDirected(ByKey(), p, xs);
    assert forall a, b | 0 <= a < b < |Base(xs)| :: p(Base(xs)[a], Base(xs)[b]);
  }

  /** Heaviest first, equal weights by key. */
  lemma HeaviestFirst(env: Env, xs: seq<Expanded>) returns (rows: seq<Expanded>)
    requires Ready(env, xs) && env.rng.None?
    ensures (forall e | e in Base(xs) :: e.weight >= 1) && multiset(rows) == multiset(xs)
    ensures Picked(Base(xs), DrawOrder(Weights(Base(xs)), env.rng)) == Cands(rows)
    ensures Pairwise(Direction(Weighted, env), rows)
  {
    BaseMembers(xs);
    BaseIsByKeys(xs);
    var group, ws, at := Base(xs), Weights(Base(xs)), Indices(|xs|);
    var p := (i: nat, j: nat) => i < |group| && j < |group| && MayPrecede(Weighted, env, group[i], group[j]);
    KeysAreOrdered();
    forall i, j | 0 <= i < j < |at| ensures Suited(Heavier(ws), p, at[i], at[j]) {
      assert KeyUpTo(group[i], group[j]);
    }
    SortDirected(Heavier(ws), p, at);
    SortPermutes(Heavier(ws), at);
    var picks := StableSort(Heavier(ws), at);
    rows := PickedRows(xs, picks);
    forall i, j | 0 <= i < j < |rows| ensures Direction(Weighted, env)(rows[i], rows[j]) {
      assert p(picks[i], picks[j]);
    }
  }

  // --- round-robin ---

  lemma SameMembers<T>(a: seq<T>, b: seq<T>)
    requires multiset(a) == multiset(b)
    ensures forall e :: e in a <==> e in b
  {
    forall e ensures e in a <==> e in b {
      assert e in a <==> e in multiset(a);
      assert e in b <==> e in multiset(b);
    }
  }

  lemma RotatedPermutes<T>(s: seq<T>, start: nat)
    ensures multiset(Rotated(s, start)) == multiset(s)
  {
    if start <= |s| { assert s == s[..start] + s[start..]; }
  }

  lemma RotatedCands(s: seq<Expanded>, start: nat)
    ensures Rotated(Cands(s), start) == Cands(Rotated(s, start))
  {
  }

  ghost predicate AllOf(rows: seq<Expanded>, step: int) { forall e | e in rows :: e.step == step }

  ghost predicate AllFrom(rows: seq<Expanded>, step: int) { forall e | e in rows :: e.step >= step }

  lemma TurnRows(m: Turns, combo: string, step: nat, group: seq<Expanded>) returns (rows: seq<Expanded>)
    requires AllOf(group, step)
    ensures Turn(m, combo, step, group) == Cands(rows) && multiset(rows) == multiset(group) && AllOf(rows, step)
  {
    var sorted, at := StableSort(ByKey(), group), Start(m, RRKey(combo, step), |group|);
    rows := Rotated(sorted, at);
    SortPermutes(ByKey(), group);
    RotatedPermutes(sorted, at);
    RotatedCands(sorted, at);
    SameMembers(rows, group);
  }

  function StepUpTo(): (Expanded, Expanded) -> bool { (a: Expanded, b: Expanded) => a.step <= b.step }

  lemma StepsApart(mine: seq<Expanded>, step: int, rest: seq<Expanded>, next: int)
    requires AllOf(mine, step) && AllFrom(rest, next) && step < next && Pairwise(StepUpTo(), rest)
    ensures Pairwise(StepUpTo(), mine + rest) && AllFrom(mine + rest, step)
  {
    PairwiseConcat(StepUpTo(), mine, rest);
  }

  /** The turns put out these rows, and they are those of the groups. */
  ghost predicate TurnsPutOut(m: Turns, combo: string, steps: seq<int>, groups: seq<seq<Expanded>>, rows: seq<Expanded>)
    requires |groups| == |steps| && forall i | 0 <= i < |steps| :: steps[i] >= 0
  {
    Flatten(AllTurns(m, combo, steps, groups)) == Cands(rows) && multiset(rows) == multiset(Flatten(groups))
  }

  lemma CandsJoin(a: seq<Expanded>, b: seq<Expanded>)
    ensures Cands(a + b) == Cands(a) + Cands(b)
  {
  }

  lemma FlattenJoin<T>(groups: seq<seq<T>>, mine: seq<T>, rest: seq<T>)
    requires groups != [] && multiset(mine) == multiset(groups[0]) && multiset(rest) == multiset(Flatten(groups[1..]))
    ensures multiset(mine + rest) == multiset(Flatten(groups))
  {
  }

  lemma TurnsHead(m: Turns, combo: string, steps: seq<int>, groups: seq<seq<Expanded>>)
    requires |groups| == |steps| > 0 && forall i | 0 <= i < |steps| :: steps[i] >= 0
    ensures Flatten(AllTurns(m, combo, steps, groups))
         == Turn(m, combo, steps[0], groups[0]) + Flatten(AllTurns(m, combo, steps[1..], groups[1..]))
  {
    var turns := AllTurns(m, combo, steps, groups);
    assert turns[1..] == AllTurns(m, combo, steps[1..], groups[1..]);
  }

  lemma TurnsPutOutHead(m: Turns, combo: string, steps: seq<int>, groups: seq<seq<Expanded>>, mine: seq<Expanded>,
                        rest: seq<Expanded>)
    requires |groups| == |steps| > 0 && forall i | 0 <= i < |steps| :: steps[i] >= 0
    requires Turn(m, combo, steps[0], groups[0]) == Cands(mine) && multiset(mine) == multiset(groups[0])
    requires TurnsPutOut(m, combo, steps[1..], groups[1..], rest)
    ensures TurnsPutOut(m, combo, steps, groups, mine + rest)
  {
    TurnsHead(m, combo, steps, groups);
    CandsJoin(mine, rest);
    FlattenJoin(groups, mine, rest);
  }

  /** The turns of tiers with ascending steps keep the steps apart. */
  lemma {:induction false} TurnsDirected(m: Turns, combo: string, steps: seq<int>, groups: seq<seq<Expanded>>)
    returns (rows: seq<Expanded>)
    requires |groups| == |steps| && Ascending(steps)
    requires forall i | 0 <= i < |steps| :: steps[i] >= 0 && AllOf(groups[i], steps[i])
    ensures TurnsPutOut(m, combo, steps, groups, rows) && Pairwise(StepUpTo(), rows)
    ensures if steps == [] then rows == [] else AllFrom(rows, steps[0])
  {
    if groups == [] {
      rows := [];
    } else {
      var rest := TurnsDirected(m, combo, steps[1..], groups[1..]);
      var mine := TurnRows(m, combo, steps[0], groups[0]);
      rows := mine + rest;
      TurnsPutOutHead(m, combo, steps, groups, mine, rest);
      StepsApart(mine, steps[0], rest, if |steps| == 1 then steps[0] + 1 else steps[1]);
    }
  }

  lemma TiersHaveSteps(groups: seq<seq<Expanded>>, steps: seq<int>, xs: seq<Expanded>)
    requires IsTiering(groups, steps, xs)
    ensures forall i | 0 <= i < |steps| :: steps[i] >= 0 && AllOf(groups[i], steps[i])
  {
    forall i | 0 <= i < |steps| ensures AllOf(groups[i], steps[i]) {
      KeepAll(In(StepAt(), steps[i]), xs);
      forall e | e in groups[i] ensures e.step == steps[i] {
        assert In(StepAt(), steps[i])(e);
      }
    }
  }

  lemma StepsDirect(env: Env, rows: seq<Expanded>)
    requires Pairwise(StepUpTo(), rows)
    ensures Pairwise(Direction(RoundRobin, env), rows)
  {
    assert forall i, j | 0 <= i < j < |rows| :: StepUpTo()(rows[i], rows[j]);
  }

  lemma TieringDirected(env: Env, turns: Turns, xs: seq<Expanded>, groups: seq<seq<Expanded>>, steps: seq<int>)
    returns (rows: seq<Expanded>)
    requires IsTiering(groups, steps, xs)
    ensures Flatten(AllTurns(turns, env.combo, steps, groups)) == Cands(rows) && multiset(rows) == multiset(xs)
    ensures Pairwise(Direction(RoundRobin, env), rows)
  {
    TiersHaveSteps(groups, steps, xs);
    rows := TurnsDirected(turns, env.combo, steps, groups);
    GroupingIsPermutation(groups, steps, xs, StepAt());
    StepsDirect(env, rows);
  }

  lemma RoundRobinDirected(env: Env, turns: Turns, xs: seq<Expanded>, order: seq<Cand>) returns (rows: seq<Expanded>)
    requires RoundRobinOrders(turns, env.combo, xs, order)
    ensures order == Cands(rows) && multiset(rows) == multiset(xs) && Pairwise(Direction(RoundRobin, env), rows)
  {
    var groups: seq<seq<Expanded>>, steps: seq<int> :|
      IsTiering(groups, steps, xs) && order == Flatten(AllTurns(turns, env.combo, steps, groups));
    rows := TieringDirected(env, turns, xs, groups, steps);
  }

  // --- every order ---

  lemma SortedOrders(kind: Kind, env: Env, turns: Turns, fills: Turns, xs: seq<Expanded>, order: seq<Cand>)
    returns (rows: seq<Expanded>)
    requires Ready(env, xs) && Orders(kind, env, turns, fills, xs, order)
    requires kind in {Priority, Fallback, Fusion, Pipeline, Cost, Auto}
    ensures order == Cands(rows) && multiset(rows) == multiset(xs) && Pairwise(Direction(kind, env), rows)
  {
    match kind
    case Priority | Fallback | Fusion | Pipeline =>
      forall x, y { StepSuits(kind, env, x, y); }
      rows := SortedDirected(kind, env, ByStep(), xs);
    case Cost =>
      forall x, y { CostSuits(env, x, y); }
      rows := SortedDirected(kind, env, ByCost(env.price), xs);
    case Auto =>
      forall x, y { ScoreSuits(env, x, y); }
      rows := SortedDirected(kind, env, ByScore(env.score), xs);
  }

  lemma DrawnOrders(kind: Kind, env: Env, turns: Turns, fills: Turns, xs: seq<Expanded>, order: seq<Cand>)
    returns (rows: seq<Expanded>)
    requires Ready(env, xs) && Orders(kind, env, turns, fills, xs, order) && kind in {Weighted, P2C}
    ensures order == Cands(rows) && multiset(rows) == multiset(xs) && Pairwise(Direction(kind, env), rows)
  {
    BaseMembers(xs);
    if kind.Weighted? {
      if env.rng.None? {
        rows := HeaviestFirst(env, xs);
      } else {
        DrawOrderIsPermutation(Weights(Base(xs)), env.rng);
        rows := PickedRows(xs, DrawOrder(Weights(Base(xs)), env.rng));
      }
    } else {
      P2COrderIsPermutation(|xs|, env.rng, PressureAt(Base(xs), env.pressure));
      rows := PickedRows(xs, P2COrder(|xs|, env.rng, PressureAt(Base(xs), env.pressure)));
      if env.rng.None? {
        BaseIsByKeys(xs);
        assert rows == Base(xs);
      }
    }
  }

  lemma SpellOut(kind: Kind, env: Env, rows: seq<Expanded>)
    requires Pairwise(Direction(kind, env), rows)
    ensures forall i, j :: 0 <= i < j < |rows| ==> MayPrecede(kind, env, rows[i], rows[j])
  {
    assert forall i, j | 0 <= i < j < |rows| :: Direction(kind, env)(rows[i], rows[j]);
  }

  lemma BareDirected(kind: Kind, env: Env, turns: Turns, fills: Turns, xs: seq<Expanded>, order: seq<Cand>)
    returns (rows: seq<Expanded>)
    requires Ready(env, xs) && Orders(kind, env, turns, fills, xs, order) && !kind.FillFirst?
    ensures order == Cands(rows) && multiset(rows) == multiset(xs) && Pairwise(Direction(kind, env), rows)
  {
    match kind {
      case Priority | Fallback | Fusion | Pipeline | Cost | Auto =>
        rows := SortedOrders(kind, env, turns, fills, xs, order);
      case Weighted | P2C => rows := DrawnOrders(kind, env, turns, fills, xs, order);
      case RoundRobin => rows := RoundRobinDirected(env, turns, xs, order);
    }
  }

  lemma UncreditedCands(rows: seq<Expanded>)
    ensures Uncredited(Cands(rows)) == Cands(rows)
  {
  }

  /** Every order of every strategy renders a rearrangement of the survivors in which nothing stands before what it may
      not precede; only fill-first writes credentials in. */
  lemma EveryOrderIsDirected(kind: Kind, env: Env, turns: Turns, fills: Turns, xs: seq<Expanded>, order: seq<Cand>)
    returns (rows: seq<Expanded>)
    requires Ready(env, xs) && Orders(kind, env, turns, fills, xs, order)
    ensures multiset(rows) == multiset(xs) && Uncredited(order) == Cands(rows) && (!kind.FillFirst? ==> order == Cands(rows))
    ensures forall i, j :: 0 <= i < j < |rows| ==> MayPrecede(kind, env, rows[i], rows[j])
  {
    if kind.FillFirst? {
      forall x, y { ProviderSuits(env, x, y); }
      rows := SortedDirected(kind, env, ByProvider(), xs);
      FillKeepsRows(fills, rows, env.accounts);
    } else {
      rows := BareDirected(kind, env, turns, fills, xs, order);
      UncreditedCands(rows);
    }
    SpellOut(kind, env, rows);
  }

  // --- after demotion ---

  /** The last expanded candidate with this provider and model, if there is one, is compatible. */
  ghost predicate LastFits(xs: seq<Expanded>, e: Expanded) {
    exists i :: 0 <= i < |xs| && StableKey(CandOf(xs[i])) == StableKey(CandOf(e)) && xs[i].compatible
                && forall j | i < j < |xs| :: StableKey(CandOf(xs[j])) != StableKey(CandOf(e))
  }

  lemma {:induction false} FitsIsLast(xs: seq<Expanded>, e: Expanded)
    ensures Fits(CompatOf(xs))(CandOf(e)) <==> LastFits(xs, e)
  {
    if xs != [] {
      var p, last := xs[..|xs| - 1], xs[|xs| - 1];
      if StableKey(CandOf(last)) != StableKey(CandOf(e)) {
        FitsIsLast(p, e);
        assert forall i | 0 <= i < |p| :: p[i] == xs[i];
      } else {
        assert LastFits(xs, e) <==> last.compatible;
      }
    }
  }

  lemma {:induction false} KeepCands(p: Cand -> bool, rows: seq<Expanded>)
    ensures Keep(p, Cands(rows)) == Cands(Keep((e: Expanded) => p(CandOf(e)), rows))
  {
    if rows != [] {
      KeepCands(p, rows[1..]);
      assert Cands(rows)[1..] == Cands(rows[1..]);
    }
  }

  /** What demotion makes of an order, for every strategy but fill-first: the compatible rows and then the others, and
      in each half still nothing stands before what it may not precede. */
  lemma DemotedIsDirected(kind: Kind, env: Env, turns: Turns, fills: Turns, xs: seq<Expanded>, order: seq<Cand>)
    returns (fit: seq<Expanded>, unfit: seq<Expanded>)
    requires Ready(env, xs) && Orders(kind, env, turns, fills, xs, order) && !kind.FillFirst?
    ensures multiset(fit) + multiset(unfit) == multiset(xs) && Demoted(order, xs) == Cands(fit) + Cands(unfit)
    ensures (forall e | e in fit :: LastFits(xs, e)) && (forall e | e in unfit :: !LastFits(xs, e))
    ensures forall i, j :: 0 <= i < j < |fit| ==> MayPrecede(kind, env, fit[i], fit[j])
    ensures forall i, j :: 0 <= i < j < |unfit| ==> MayPrecede(kind, env, unfit[i], unfit[j])
  {
    var rows := EveryOrderIsDirected(kind, env, turns, fills, xs, order);
    var fits := Fits(CompatOf(xs));
    var p, q := (e: Expanded) => fits(CandOf(e)), (e: Expanded) => Not(fits)(CandOf(e));
    fit, unfit := Keep(p, rows), Keep(q, rows);
    KeepCands(fits, rows);
    KeepCands(Not(fits), rows);
    SplitRows(p, q, rows);
    HalfDirected(kind, env, p, rows);
    HalfDirected(kind, env, q, rows);
    forall e { FitsIsLast(xs, e); }
  }

  lemma HalfDirected(kind: Kind, env: Env, p: Expanded -> bool, rows: seq<Expanded>)
    requires forall i, j :: 0 <= i < j < |rows| ==> MayPrecede(kind, env, rows[i], rows[j])
    ensures var half := Keep(p, rows);
      && (forall e | e in half :: p(e))
      && forall i, j :: 0 <= i < j < |half| ==> MayPrecede(kind, env, half[i], half[j])
  {
    KeepAll(p, rows);
    PairwiseKeep(p, Direction(kind, env), rows);
    SpellOut(kind, env, Keep(p, rows));
  }

  lemma {:induction false} SplitRows(p: Expanded -> bool, q: Expanded -> bool, rows: seq<Expanded>)
    requires forall e :: q(e) <==> !p(e)
    ensures multiset(Keep(p, rows)) + multiset(Keep(q, rows)) == multiset(rows)
  {
    if rows != [] {
      SplitRows(p, q, rows[1..]);
      WithoutHead(rows);
    }
  }
}
