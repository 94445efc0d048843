/** The strategies that draw (internal/router/strategies_sequential.go): weighted draws and power of two choices. */
module RouteDraws {
  import opened StableSorting
  import opened RouteOrder

  /** `rng(round, n)` is the random value below n of that round. */
  type Rng = (nat, nat) -> nat

  ghost predicate Sound(rng: Rng) { forall round, n :: n > 0 ==> rng(round, n) < n }

  // --- rendering a drawn order ---

  function Indices(n: nat): seq<nat> { seq(n, i => i) }

  function At(group: seq<Expanded>): nat -> Cand { (i: nat) => if i < |group| then CandOf(group[i]) else Cand("", "", "") }

  function Picked(group: seq<Expanded>, order: seq<nat>): seq<Cand> { Mapped(At(group), order) }

  method Render(group: seq<Expanded>, order: seq<nat>) returns (out: seq<Cand>)
    requires forall i | 0 <= i < |order| :: order[i] < |group|
    ensures out == Picked(group, order)
  {
    out := [];
    for i := 0 to |order|
      invariant out == Picked(group, order)[..i]
    {
      out := out + [CandOf(group[order[i]])];
    }
  }

  lemma PositionsInRange(order: seq<nat>, n: nat)
    requires multiset(order) == multiset(Indices(n))
    ensures forall i | 0 <= i < |order| :: order[i] < n
  {
    forall i | 0 <= i < |order| ensures order[i] < n {
      assert order[i] in multiset(order);
      assert order[i] in Indices(n);
    }
  }

  /** Any rearrangement of the positions renders a rearrangement of the candidates. */
  lemma PickedIsPermutation(xs: seq<Expanded>, order: seq<nat>)
    requires multiset(order) == multiset(Indices(|xs|))
    ensures multiset(Picked(Base(xs), order)) == multiset(Cands(xs))
  {
    var group := Base(xs);
    MappedMultiset(At(group), order, Indices(|xs|));
    assert Picked(group, Indices(|xs|)) == Cands(group);
    OrderIsPermutation(ByKey(), xs);
  }

  /** The base order of a draw. */
  function Base(xs: seq<Expanded>): seq<Expanded> { StableSort(ByKey(), xs) }

  lemma BaseMembers(xs: seq<Expanded>)
    ensures forall e :: e in Base(xs) <==> e in xs
  {
    SortPermutes(ByKey(), xs);
    forall e ensures e in Base(xs) <==> e in xs {
      assert e in Base(xs) <==> e in multiset(Base(xs));
      assert e in xs <==> e in multiset(xs);
    }
  }

  // --- weighted draw ---

  function Total(ws: seq<nat>): nat {
    if ws == [] then 0 else ws[0] + Total(ws[1..])
  }

  /** The position the cumulative weights put r at. */
  function Pick(ws: seq<nat>, r: nat): nat
    requires r < Total(ws)
    ensures Pick(ws, r) < |ws|
  {
    if r < ws[0] then 0 else 1 + Pick(ws[1..], r - ws[0])
  }

  function WeightsAt(ws: seq<nat>, remaining: seq<nat>): (r: seq<nat>)
    requires forall k | 0 <= k < |remaining| :: remaining[k] < |ws|
    ensures |r| == |remaining|
  {
    seq(|remaining|, k requires 0 <= k < |remaining| => ws[remaining[k]])
  }

  function RemoveAt<T>(s: seq<T>, k: nat): seq<T>
    requires k < |s|
  {
    s[..k] + s[k + 1..]
  }

  predicate Drawable(ws: seq<nat>, remaining: seq<nat>) {
    (forall k | 0 <= k < |ws| :: ws[k] >= 1) && forall k | 0 <= k < |remaining| :: remaining[k] < |ws|
  }

  /** The weights of a group, as expansion leaves them: at least 1 each. */
  function Weights(group: seq<Expanded>): (ws: seq<nat>)
    requires forall e | e in group :: e.weight >= 1
    ensures Drawable(ws, []) && |ws| == |group|
  {
    seq(|group|, i requires 0 <= i < |group| => assert group[i] in group; group[i].weight)
  }

  lemma TotalPositive(ws: seq<nat>)
    requires ws != [] && forall k | 0 <= k < |ws| :: ws[k] >= 1
    ensures Total(ws) >= 1
  {
  }

  ghost function Drawn(ws: seq<nat>, remaining: seq<nat>, rng: Rng, round: nat): seq<nat>
    requires Drawable(ws, remaining) && Sound(rng)
    decreases |remaining|
  {
    if remaining == [] then []
    else
      var cur := WeightsAt(ws, remaining);
      TotalPositive(cur);
      var k := Pick(cur, rng(round, Total(cur)));
      [remaining[k]] + Drawn(ws, RemoveAt(remaining, k), rng, round + 1)
  }

  method SumWeights(ws: seq<nat>, remaining: seq<nat>) returns (total: nat)
    requires Drawable(ws, remaining)
    ensures total == Total(WeightsAt(ws, remaining))
  {
    total := 0;
    var cur := WeightsAt(ws, remaining);
    for k := 0 to |remaining|
      invariant total + Total(cur[k..]) == Total(cur)
    {
      total := total + ws[remaining[k]];
      assert cur[k..][1..] == cur[k + 1..];
    }
  }

  method FindPick(ws: seq<nat>, remaining: seq<nat>, r: nat) returns (pick: nat)
    requires Drawable(ws, remaining) && r < Total(WeightsAt(ws, remaining))
    ensures pick == Pick(WeightsAt(ws, remaining), r)
  {
    var cur := WeightsAt(ws, remaining);
    var acc := 0;
    for pos := 0 to |remaining|
      invariant acc <= r && r - acc < Total(cur[pos..])
      invariant Pick(cur, r) == pos + Pick(cur[pos..], r - acc)
    {
      assert cur[pos..][1..] == cur[pos + 1..];
      if r < acc + ws[remaining[pos]] {
        return pos;
      }
      acc := acc + ws[remaining[pos]];
    }
    assert false;
  }

  /** Without a random source: heaviest first, equal weights in stable order. */
  function Heavier(ws: seq<nat>): (nat, nat) -> bool {
    (i: nat, j: nat) => i < |ws| && j < |ws| && ws[i] > ws[j]
  }

  ghost function DrawOrder(ws: seq<nat>, rng: Option<Rng>): seq<nat>
    requires Drawable(ws, []) && (rng.Some? ==> Sound(rng.value))
  {
    if rng.None? then StableSort(Heavier(ws), Indices(|ws|)) else Drawn(ws, Indices(|ws|), rng.value, 0)
  }

  method WeightedDraw(ws: seq<nat>, rng: Option<Rng>) returns (out: seq<nat>)
    requires Drawable(ws, []) && (rng.Some? ==> Sound(rng.value))
    ensures out == DrawOrder(ws, rng)
  {
    var remaining := Indices(|ws|);
    if rng.None? {
      return StableSort(Heavier(ws), remaining);
    }
    ghost var all := Drawn(ws, remaining, rng.value, 0);
    out := [];
    var round := 0;
    while remaining != []
      invariant Drawable(ws, remaining)
      invariant out + Drawn(ws, remaining, rng.value, round) == all
      decreases |remaining|
    {
      var total := SumWeights(ws, remaining);
      TotalPositive(WeightsAt(ws, remaining));
      var pick := FindPick(ws, remaining, rng.value(round, total));
      AppendAssociates(out, remaining[pick], Drawn(ws, RemoveAt(remaining, pick), rng.value, round + 1));
      out := out + [remaining[pick]];
      remaining := RemoveAt(remaining, pick);
      round := round + 1;
    }
  }

  /** The weighted strategy: sort by key, draw, render. */
  method WeightedOrder(xs: seq<Expanded>, rng: Option<Rng>) returns (out: seq<Cand>)
    requires (forall e | e in xs :: e.weight >= 1) && (rng.Some? ==> Sound(rng.value))
    ensures (forall e | e in Base(xs) :: e.weight >= 1) && out == Picked(Base(xs), DrawOrder(Weights(Base(xs)), rng))
  {
    BaseMembers(xs);
    var group := StableSort(ByKey(), xs);
    var order := WeightedDraw(Weights(group), rng);
    DrawOrderIsPermutation(Weights(group), rng);
    PositionsInRange(order, |group|);
    out := Render(group, order);
  }

  lemma AppendAssociates(out: seq<nat>, x: nat, rest: seq<nat>)
    ensures out + ([x] + rest) == (out + [x]) + rest
  {
  }

  lemma {:induction false} DrawIsPermutation(ws: seq<nat>, remaining: seq<nat>, rng: Rng, round: nat)
    requires Drawable(ws, remaining) && Sound(rng)
    ensures multiset(Drawn(ws, remaining, rng, round)) == multiset(remaining)
    decreases |remaining|
  {
    if remaining != [] {
      var cur := WeightsAt(ws, remaining);
      TotalPositive(cur);
      var k := Pick(cur, rng(round, Total(cur)));
      DrawIsPermutation(ws, RemoveAt(remaining, k), rng, round + 1);
      WithoutAt(remaining, k);
    }
  }

  /** With and without a random source, every position is drawn once. */
  lemma DrawOrderIsPermutation(ws: seq<nat>, rng: Option<Rng>)
    requires Drawable(ws, []) && (rng.Some? ==> Sound(rng.value))
    ensures multiset(DrawOrder(ws, rng)) == multiset(Indices(|ws|))
  {
    if rng.None? {
      SortPermutes(Heavier(ws), Indices(|ws|));
    } else {
      DrawIsPermutation(ws, Indices(|ws|), rng.value, 0);
    }
  }

  lemma {:induction false} PickIff(ws: seq<nat>, r: nat, k: nat)
    requires r < Total(ws) && k < |ws|
    ensures Pick(ws, r) == k <==> Total(ws[..k]) <= r < Total(ws[..k]) + ws[k]
  {
    if k > 0 {
      assert ws[..k][1..] == ws[1..][..k - 1];
      if r >= ws[0] { PickIff(ws[1..], r - ws[0], k - 1); }
    }
  }

  /** The n values from lo on. */
  function Values(lo: nat, n: nat): (vs: set<nat>)
    ensures |vs| == n && forall r :: r in vs <==> lo <= r < lo + n
  {
    if n == 0 then {} else Values(lo, n - 1) + {lo + n - 1}
  }

  /** The random values that select position k. */
  function Hits(ws: seq<nat>, k: nat): set<nat> {
    set r | r in Values(0, Total(ws)) && Pick(ws, r) == k
  }

  lemma {:induction false} PrefixTotal(ws: seq<nat>, k: nat)
    requires k < |ws|
    ensures Total(ws[..k]) + ws[k] <= Total(ws)
  {
    if k > 0 {
      PrefixTotal(ws[1..], k - 1);
      assert ws[..k][1..] == ws[1..][..k - 1];
    }
  }

  /** In every round, of the values the random source may return exactly as many select a candidate as it weighs. */
  lemma DrawIsProportional(ws: seq<nat>, k: nat)
    requires k < |ws|
    ensures |Hits(ws, k)| == ws[k]
  {
    PrefixTotal(ws, k);
    forall r ensures r in Hits(ws, k) <==> r in Values(Total(ws[..k]), ws[k]) {
      if 0 <= r < Total(ws) { PickIff(ws, r, k); }
    }
    assert Hits(ws, k) == Values(Total(ws[..k]), ws[k]);
  }

  // --- power of two choices ---

  /** The positions of two different candidates drawn from n. */
  function Pair(n: nat, rng: Rng, round: nat): (nat, nat) {
    var a := rng(round, n);
    var b := rng(round + 1, if n > 1 then n - 1 else 0);
    (a, if b >= a then b + 1 else b)
  }

  lemma PairInRange(n: nat, rng: Rng, round: nat)
    requires n >= 2 && Sound(rng)
    ensures Pair(n, rng, round).0 < n && Pair(n, rng, round).1 < n && Pair(n, rng, round).0 != Pair(n, rng, round).1
  {
  }

  /** Which of the two has the lower pressure: 0 for the first, also on ties, 1 for the second. */
  function Better(pressure: nat -> real, x: nat, y: nat): nat { if pressure(y) < pressure(x) then 1 else 0 }

  /** The position the code takes in a round: the answer of the comparison itself, not the drawn position it names. */
  function PickOf(remaining: seq<nat>, rng: Rng, pressure: nat -> real, round: nat): (pick: nat)
    requires remaining != [] && Sound(rng)
    ensures pick < |remaining| && pick <= 1
  {
    if |remaining| == 1 then 0
    else
      PairInRange(|remaining|, rng, round);
      var (a, b) := Pair(|remaining|, rng, round);
      Better(pressure, remaining[a], remaining[b])
  }

  /** The position the strategy is described to take: that of the drawn candidate with the lower pressure. */
  function BestOf(remaining: seq<nat>, rng: Rng, pressure: nat -> real, round: nat): (pick: nat)
    requires remaining != [] && Sound(rng)
    ensures pick < |remaining|
  {
    if |remaining| == 1 then 0
    else
      PairInRange(|remaining|, rng, round);
      var (a, b) := Pair(|remaining|, rng, round);
      if Better(pressure, remaining[a], remaining[b]) == 0 then a else b
  }

  ghost function TwoChoices(remaining: seq<nat>, rng: Rng, pressure: nat -> real, round: nat): seq<nat>
    requires Sound(rng)
    decreases |remaining|
  {
    if remaining == [] then []
    else
      var pick := PickOf(remaining, rng, pressure, round);
      [remaining[pick]] + TwoChoices(RemoveAt(remaining, pick), rng, pressure, round + 2)
  }

  ghost function BestChoices(remaining: seq<nat>, rng: Rng, pressure: nat -> real, round: nat): seq<nat>
    requires Sound(rng)
    decreases |remaining|
  {
    if remaining == [] then []
    else
      var pick := BestOf(remaining, rng, pressure, round);
      [remaining[pick]] + BestChoices(RemoveAt(remaining, pick), rng, pressure, round + 2)
  }

  /** In every round the better of the two drawn stands where the code looks: at position 0 if it was drawn first, at
      position 1 if it was drawn second. */
  ghost predicate DrawnInPlace(remaining: seq<nat>, rng: Rng, pressure: nat -> real, round: nat)
    requires Sound(rng)
    decreases |remaining|
  {
    |remaining| <= 1
    || (PairInRange(|remaining|, rng, round);
        var (a, b) := Pair(|remaining|, rng, round);
        var pick := PickOf(remaining, rng, pressure, round);
        (if pick == 0 then a == 0 else b == 1) && DrawnInPlace(RemoveAt(remaining, pick), rng, pressure, round + 2))
  }

  ghost predicate Distinct(s: seq<nat>) { forall i, j :: 0 <= i < j < |s| ==> s[i] != s[j] }

  lemma RemoveKeepsDistinct(s: seq<nat>, k: nat)
    requires k < |s| && Distinct(s)
    ensures Distinct(RemoveAt(s, k))
  {
  }

  /** Power of two choices takes the better of the two candidates it drew, in every round, exactly when each stood in its
      place. */
  lemma {:induction false} TakesBetterIff(remaining: seq<nat>, rng: Rng, pressure: nat -> real, round: nat)
    requires Sound(rng) && Distinct(remaining)
    ensures TwoChoices(remaining, rng, pressure, round) == BestChoices(remaining, rng, pressure, round)
       <==> DrawnInPlace(remaining, rng, pressure, round)
    decreases |remaining|
  {
    if remaining != [] {
      var pick, best := PickOf(remaining, rng, pressure, round), BestOf(remaining, rng, pressure, round);
      var mine := TwoChoices(remaining, rng, pressure, round);
      var theirs := BestChoices(remaining, rng, pressure, round);
      assert mine[0] == remaining[pick] && theirs[0] == remaining[best];
      assert mine[0] == theirs[0] <==> pick == best;
      if pick == best {
        RemoveKeepsDistinct(remaining, pick);
        TakesBetterIff(RemoveAt(remaining, pick), rng, pressure, round + 2);
        assert mine[1..] == TwoChoices(RemoveAt(remaining, pick), rng, pressure, round + 2);
        assert theirs[1..] == BestChoices(RemoveAt(remaining, pick), rng, pressure, round + 2);
        assert mine == [mine[0]] + mine[1..] && theirs == [theirs[0]] + theirs[1..];
      }
    }
  }

  /** Of two candidates, drawn second first, the worse is taken first. */
  lemma TakesWorse(rng: Rng, pressure: nat -> real)
    requires Sound(rng) && rng(0, 2) == 1 && pressure(1) < pressure(0)
    ensures TwoChoices([0, 1], rng, pressure, 0) == [0, 1] && BestChoices([0, 1], rng, pressure, 0) == [1, 0]
  {
    assert Pair(2, rng, 0) == (1, 0);
    assert RemoveAt([0, 1], 0) == [1] && RemoveAt([0, 1], 1) == [0];
    assert RemoveAt([1], 0) == [] && RemoveAt([0], 0) == [];
    assert TwoChoices([1], rng, pressure, 2) == [1] && BestChoices([0], rng, pressure, 2) == [0];
  }

  /** What remains after k rounds: one candidate from the front, and all behind it untouched. */
  ghost predicate FrontTaken(remaining: seq<nat>, k: nat) {
    remaining != [] ==> remaining[0] <= k && forall j | 1 <= j < |remaining| :: remaining[j] == k + j
  }

  lemma FrontStep(remaining: seq<nat>, k: nat, pick: nat)
    requires remaining != [] && FrontTaken(remaining, k) && pick <= 1 && pick < |remaining|
    ensures remaining[pick] <= k + 1 && FrontTaken(RemoveAt(remaining, pick), k + 1)
  {
  }

  lemma {:induction false} FrontBound(remaining: seq<nat>, rng: Rng, pressure: nat -> real, round: nat, k: nat, j: nat)
    requires Sound(rng) && FrontTaken(remaining, k) && j < |TwoChoices(remaining, rng, pressure, round)|
    ensures TwoChoices(remaining, rng, pressure, round)[j] <= k + j + 1
    decreases |remaining|
  {
    var pick := PickOf(remaining, rng, pressure, round);
    FrontStep(remaining, k, pick);
    if j > 0 { FrontBound(RemoveAt(remaining, pick), rng, pressure, round + 2, k + 1, j - 1); }
  }

  /** In every round only the first two of those remaining can be taken: what is taken in round j stood no further back
      than position j + 1, whatever was drawn. */
  lemma TakesFromFront(n: nat, rng: Option<Rng>, pressure: nat -> real, j: nat)
    requires (rng.Some? ==> Sound(rng.value)) && j < |P2COrder(n, rng, pressure)|
    ensures P2COrder(n, rng, pressure)[j] <= j + 1
  {
    if rng.Some? { FrontBound(Indices(n), rng.value, pressure, 0, 0, j); }
  }

  lemma {:induction false} TwoChoicesIsPermutation(remaining: seq<nat>, rng: Rng, pressure: nat -> real, round: nat)
    requires Sound(rng)
    ensures multiset(TwoChoices(remaining, rng, pressure, round)) == multiset(remaining)
    decreases |remaining|
  {
    if remaining != [] {
      var pick := PickOf(remaining, rng, pressure, round);
      TwoChoicesIsPermutation(RemoveAt(remaining, pick), rng, pressure, round + 2);
      WithoutAt(remaining, pick);
    }
  }

  ghost function P2COrder(n: nat, rng: Option<Rng>, pressure: nat -> real): seq<nat>
    requires rng.Some? ==> Sound(rng.value)
  {
    if rng.None? then Indices(n) else TwoChoices(Indices(n), rng.value, pressure, 0)
  }

  lemma P2COrderIsPermutation(n: nat, rng: Option<Rng>, pressure: nat -> real)
    requires rng.Some? ==> Sound(rng.value)
    ensures multiset(P2COrder(n, rng, pressure)) == multiset(Indices(n))
  {
    if rng.Some? { TwoChoicesIsPermutation(Indices(n), rng.value, pressure, 0); }
  }

  function PressureAt(group: seq<Expanded>, pressure: Expanded -> real): nat -> real {
    (i: nat) => if i < |group| then pressure(group[i]) else 0.0
  }

  /** One round's draws and comparison. */
  method DrawPair(remaining: seq<nat>, rng: Rng, pressure: nat -> real, round: nat) returns (pick: nat)
    requires remaining != [] && Sound(rng)
    ensures pick == PickOf(remaining, rng, pressure, round)
  {
    pick := 0;
    if |remaining| > 1 {
      var a := rng(round, |remaining|);
      var b := rng(round + 1, |remaining| - 1);
      if b >= a {
        b := b + 1;
      }
      pick := Better(pressure, remaining[a], remaining[b]);
    }
  }

  /** The p2c strategy: sort by key, draw pairs, render. */
  method PowerOfTwo(xs: seq<Expanded>, rng: Option<Rng>, pressure: Expanded -> real) returns (out: seq<Cand>)
    requires rng.Some? ==> Sound(rng.value)
    ensures out == Picked(Base(xs), P2COrder(|xs|, rng, PressureAt(Base(xs), pressure)))
  {
    var group := StableSort(ByKey(), xs);
    var remaining: seq<nat> := Indices(|group|);
    if rng.None? {
      out := Render(group, remaining);
      return;
    }
    var at := PressureAt(group, pressure);
    ghost var all := TwoChoices(remaining, rng.value, at, 0);
    var order: seq<nat> := [];
    var round := 0;
    while remaining != []
      invariant order + TwoChoices(remaining, rng.value, at, round) == all
      decreases |remaining|
    {
      var pick := DrawPair(remaining, rng.value, at, round);
      AppendAssociates(order, remaining[pick], TwoChoices(RemoveAt(remaining, pick), rng.value, at, round + 2));
      order := order + [remaining[pick]];
      remaining := RemoveAt(remaining, pick);
      round := round + 2;
    }
    assert order == all;
    TwoChoicesIsPermutation(Indices(|group|), rng.value, at, 0);
    PositionsInRange(order, |group|);
    out := Render(group, order);
  }
}
