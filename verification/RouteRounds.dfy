/** The strategies that take turns or draw, round by round (internal/router/strategies_sequential.go, cursor.go): whom
    each turn puts where, and whom each draw can take, in terms of keys, weights and pressures. */
module RouteRounds {
  import opened StableSorting
  import opened RouteOrder
  import opened RouteGroups
  import opened RouteTurns
  import opened RouteDraws
  import opened RouteDirections

  // --- turns ---

  /** Where a stored cursor stands for n choices: at 0 before the first turn, or if the choices have become fewer. */
  ghost predicate StandsAt(m: Turns, key: string, n: nat, at: nat) {
    if key in m && 0 <= m[key] < n then at == m[key] else at == 0
  }

  /** A tier's turn goes round its candidates by key, starting where the tier's cursor stands. */
  lemma TurnGoesRound(m: Turns, combo: string, step: nat, group: seq<Expanded>) returns (sorted: seq<Expanded>, at: nat)
    requires group != []
    ensures ByKeys(sorted, group) && |sorted| == |group| && StandsAt(m, RRKey(combo, step), |group|, at)
    ensures var tier := Turn(m, combo, step, group);
      |tier| == |group| && forall k :: 0 <= k < |group| ==> tier[k] == CandOf(sorted[(at + k) % |group|])
  {
    sorted, at := Base(group), Start(m, RRKey(combo, step), |group|);
    BaseIsByKeys(group);
    var tier := Turn(m, combo, step, group);
    forall k | 0 <= k < |group| ensures tier[k] == CandOf(sorted[(at + k) % |group|]) {
      RotatedAt(Cands(sorted), at, k);
    }
  }

  predicate SameDesk(a: Expanded, b: Expanded) { a.provider == b.provider && a.step == b.step }

  /** The rows of one provider and step among these. */
  function DeskCount(rows: seq<Expanded>, e: Expanded): nat {
    if rows == [] then 0 else (if SameDesk(rows[0], e) then 1 else 0) + DeskCount(rows[1..], e)
  }

  lemma DeskKey(a: Expanded, b: Expanded)
    ensures FillKey(a) == FillKey(b) <==> SameDesk(a, b)
  {
    if FillKey(a) == FillKey(b) { RRKeyInjective(a.provider, b.provider, a.step, b.step); }
  }

  lemma DeskMovesOn(m: Turns, row: Expanded, taken: nat, e: Expanded, n: nat)
    requires n > 0 && (SameDesk(row, e) ==> taken == n)
    ensures var at := Start(m, FillKey(e), n);
      Start(Advanced(m, FillKey(row), taken), FillKey(e), n) == if SameDesk(row, e) then Next(at, n) else at
  {
    DeskKey(row, e);
    WrapOnce(Start(m, FillKey(e), n) + 1, n);
  }

  /** The cursor of e's provider and step moves on by one with every row of them. */
  lemma {:induction false} DeskGoesRound(m: Turns, rows: seq<Expanded>, accounts: Expanded -> seq<string>, e: Expanded, n: nat)
    requires n > 0 && forall x | x in rows && SameDesk(x, e) :: |accounts(x)| == n
    ensures Start(FilledTurns(m, rows, accounts), FillKey(e), n) == Nth(Start(m, FillKey(e), n), n, DeskCount(rows, e))
    decreases |rows|
  {
    if rows != [] {
      var m' := Advanced(m, FillKey(rows[0]), |accounts(rows[0])|);
      assert rows[0] in rows && forall x | x in rows[1..] :: x in rows;
      DeskGoesRound(m', rows[1..], accounts, e, n);
      DeskMovesOn(m, rows[0], |accounts(rows[0])|, e, n);
    }
  }

  /** Fill-first: a row takes the account as many places behind its cursor as there are rows of its provider and step
      before it, going round the accounts. A row with no account to choose from gets none. */
  lemma FillFirstGoesRound(m: Turns, rows: seq<Expanded>, accounts: Expanded -> seq<string>, i: nat) returns (at: nat)
    requires i < |rows| && forall x | x in rows && SameDesk(x, rows[i]) :: |accounts(x)| == |accounts(rows[i])|
    ensures StandsAt(m, RRKey(rows[i].provider, rows[i].step), |accounts(rows[i])|, at)
    ensures var out, ids := FilledFrom(m, rows, accounts).0, accounts(rows[i]);
      && |out| == |rows| && out[i].provider == rows[i].provider && out[i].model == rows[i].model
      && if ids == [] then out[i].credential == ""
         else var k := Nth(at, |ids|, DeskCount(rows[..i], rows[i])); k < |ids| && out[i].credential == ids[k]
  {
    var ids := accounts(rows[i]);
    at := Start(m, FillKey(rows[i]), |ids|);
    FilledAt(m, rows, accounts, i);
    if ids != [] {
      assert forall x | x in rows[..i] :: x in rows;
      DeskGoesRound(m, rows[..i], accounts, rows[i], |ids|);
    }
  }

  // --- taking one by one ---

  predicate Within(at: seq<nat>, n: nat) { forall k | 0 <= k < |at| :: at[k] < n }

  /** After the first j of these takings `left` is what remains, in the order it had, and number p of it comes next. */
  ghost predicate TakesNext(taken: seq<nat>, remaining: seq<nat>, j: nat, left: seq<nat>, p: nat) {
    && |taken| == |remaining| && j < |taken| && Ascending(left)
    && multiset(left) + multiset(taken[..j]) == multiset(remaining)
    && p < |left| && taken[j] == left[p]
  }

  lemma FirstTaking(remaining: seq<nat>, k: nat, tail: seq<nat>)
    requires k < |remaining| && Ascending(remaining) && |tail| == |remaining| - 1
    ensures TakesNext([remaining[k]] + tail, remaining, 0, remaining, k)
  {
    assert ([remaining[k]] + tail)[..0] == [];
  }

  lemma LaterTaking(remaining: seq<nat>, k: nat, tail: seq<nat>, j: nat, left: seq<nat>, p: nat)
    requires k < |remaining| && j > 0 && TakesNext(tail, RemoveAt(remaining, k), j - 1, left, p)
    ensures TakesNext([remaining[k]] + tail, remaining, j, left, p)
  {
    WithoutAt(remaining, k);
    assert ([remaining[k]] + tail)[..j] == [remaining[k]] + tail[..j - 1];
  }

  lemma SameLength(a: seq<nat>, b: seq<nat>)
    requires multiset(a) == multiset(b)
    ensures |a| == |b|
  {
    assert |a| == |multiset(a)| == |multiset(b)| == |b|;
  }

  lemma RemoveKeepsOrder(remaining: seq<nat>, k: nat, n: nat)
    requires k < |remaining| && Ascending(remaining) && Within(remaining, n)
    ensures Ascending(RemoveAt(remaining, k)) && Within(RemoveAt(remaining, k), n)
  {
    var rest := RemoveAt(remaining, k);
    assert forall i | 0 <= i < |rest| :: rest[i] == remaining[if i < k then i else i + 1];
  }

  // --- weighted draws ---

  ghost predicate Weighs(group: seq<Expanded>) { forall e | e in group :: e.weight >= 1 }

  /** The weight of the rows at these positions. */
  function Heft(group: seq<Expanded>, at: seq<nat>): (w: int)
    requires Within(at, |group|)
  {
    if at == [] then 0 else group[at[0]].weight + Heft(group, at[1..])
  }

  lemma {:induction false} HeftIsTotal(group: seq<Expanded>, at: seq<nat>)
    requires Weighs(group) && Within(at, |group|)
    ensures Heft(group, at) == Total(WeightsAt(Weights(group), at))
  {
    if at != [] {
      HeftIsTotal(group, at[1..]);
      assert WeightsAt(Weights(group), at)[1..] == WeightsAt(Weights(group), at[1..]);
    }
  }

  /** A value below the weight of all that are left takes number p of them: it falls into that one's stretch when their
      weights are laid end to end. */
  ghost predicate FallsInto(group: seq<Expanded>, left: seq<nat>, p: nat, value: nat)
    requires p < |left| && Within(left, |group|)
  {
    Heft(group, left[..p]) <= value < Heft(group, left[..p]) + group[left[p]].weight
  }

  lemma PickFallsInto(group: seq<Expanded>, left: seq<nat>, value: nat)
    requires Weighs(group) && Within(left, |group|)
    requires value < Total(WeightsAt(Weights(group), left))
    ensures FallsInto(group, left, Pick(WeightsAt(Weights(group), left), value), value)
  {
    var cur := WeightsAt(Weights(group), left);
    var p := Pick(cur, value);
    PickIff(cur, value, p);
    HeftIsTotal(group, left[..p]);
    assert WeightsAt(Weights(group), left[..p]) == cur[..p];
  }

  /** The value drawn in a round, below the weight of those left. */
  ghost predicate DrawsValue(group: seq<Expanded>, left: seq<nat>, rng: Rng, round: nat, value: nat)
    requires Within(left, |group|)
  {
    Heft(group, left) >= 0 && value == rng(round, Heft(group, left))
  }

  lemma DrawnHead(group: seq<Expanded>, remaining: seq<nat>, rng: Rng, round: nat)
    returns (k: nat, value: nat, tail: seq<nat>)
    requires Weighs(group) && Sound(rng) && remaining != [] && Within(remaining, |group|)
    ensures k < |remaining| && DrawsValue(group, remaining, rng, round, value) && FallsInto(group, remaining, k, value)
    ensures Within(RemoveAt(remaining, k), |group|)
    ensures tail == Drawn(Weights(group), RemoveAt(remaining, k), rng, round + 1) && |tail| == |remaining| - 1
    ensures Drawn(Weights(group), remaining, rng, round) == [remaining[k]] + tail
  {
    var cur := WeightsAt(Weights(group), remaining);
    TotalPositive(cur);
    value := rng(round, Total(cur));
    k := Pick(cur, value);
    tail := Drawn(Weights(group), RemoveAt(remaining, k), rng, round + 1);
    DrawIsPermutation(Weights(group), RemoveAt(remaining, k), rng, round + 1);
    SameLength(tail, RemoveAt(remaining, k));
    HeftIsTotal(group, remaining);
    PickFallsInto(group, remaining, value);
  }

  /** Round j of a draw takes from what the rounds before left, in the order it had. */
  lemma {:induction false} DrawRound(group: seq<Expanded>, drawn: seq<nat>, remaining: seq<nat>, rng: Rng, round: nat,
                                     j: nat, now: nat)
    returns (left: seq<nat>, p: nat, value: nat)
    requires now == round + j && Weighs(group) && Sound(rng) && j < |remaining|
    requires Ascending(remaining) && Within(remaining, |group|) && drawn == Drawn(Weights(group), remaining, rng, round)
    ensures TakesNext(drawn, remaining, j, left, p) && Within(left, |group|)
    ensures DrawsValue(group, left, rng, now, value) && FallsInto(group, left, p, value)
    decreases j
  {
    var k, v, tail := DrawnHead(group, remaining, rng, round);
    if j == 0 {
      left, p, value := remaining, k, v;
      FirstTaking(remaining, k, tail);
    } else {
      RemoveKeepsOrder(remaining, k, |group|);
      left, p, value := DrawRound(group, tail, RemoveAt(remaining, k), rng, round + 1, j - 1, now);
      LaterTaking(remaining, k, tail, j, left, p);
    }
  }

  /** Round j of the weighted strategy draws from the candidates not yet drawn, in the order of their keys. A value is
      drawn below the sum of their weights, and each of them is taken by as many values as it weighs. */
  lemma WeightedRound(xs: seq<Expanded>, rng: Rng, j: nat) returns (left: seq<nat>, p: nat, value: nat)
    requires Weighs(xs) && Sound(rng) && j < |xs|
    ensures Weighs(Base(xs)) && ByKeys(Base(xs), xs)
    ensures var drawn := DrawOrder(Weights(Base(xs)), Some(rng));
      && TakesNext(drawn, Indices(|xs|), j, left, p) && left[p] < |xs|
      && Picked(Base(xs), drawn)[j] == CandOf(Base(xs)[left[p]])
    ensures Within(left, |Base(xs)|) && DrawsValue(Base(xs), left, rng, j, value) && FallsInto(Base(xs), left, p, value)
  {
    BaseMembers(xs);
    BaseIsByKeys(xs);
    left, p, value := DrawRound(Base(xs), DrawOrder(Weights(Base(xs)), Some(rng)), Indices(|xs|), rng, 0, j, j);
  }

  // --- power of two choices ---

  /** Of the positions left number p is taken. With one left it is that one; otherwise the two values draw two different
      ones, a and b, and the second of all that are left is taken if the one at b is under less pressure than the one
      at a, and the first of all otherwise. */
  ghost predicate TakesByPressure(left: seq<nat>, rng: Rng, round: nat, pressure: nat -> real, p: nat, a: nat, b: nat) {
    if |left| == 1 then p == 0
    else && a < |left| && b < |left| && a != b && DrawsTwo(|left|, rng, round, a, b)
         && p == if pressure(left[b]) < pressure(left[a]) then 1 else 0
  }

  /** The second value counts only the positions other than a. */
  ghost predicate DrawsTwo(n: nat, rng: Rng, round: nat, a: nat, b: nat) {
    a == rng(round, n) && n > 0 && rng(round + 1, n - 1) == if b < a then b else b - 1
  }

  lemma PickByPressure(left: seq<nat>, rng: Rng, pressure: nat -> real, round: nat) returns (a: nat, b: nat)
    requires Sound(rng) && left != []
    ensures TakesByPressure(left, rng, round, pressure, PickOf(left, rng, pressure, round), a, b)
  {
    a, b := Pair(|left|, rng, round).0, Pair(|left|, rng, round).1;
    if |left| > 1 { PairInRange(|left|, rng, round); }
  }

  lemma PairStep(remaining: seq<nat>, rng: Rng, pressure: nat -> real, round: nat)
    returns (k: nat, rest: seq<nat>, tail: seq<nat>)
    requires Sound(rng) && remaining != []
    ensures k == PickOf(remaining, rng, pressure, round) && k < |remaining| && rest == RemoveAt(remaining, k)
    ensures tail == TwoChoices(rest, rng, pressure, round + 2) && |tail| == |remaining| - 1
    ensures TwoChoices(remaining, rng, pressure, round) == [remaining[k]] + tail
  {
    k := PickOf(remaining, rng, pressure, round);
    rest := RemoveAt(remaining, k);
    tail := TwoChoices(rest, rng, pressure, round + 2);
    TwoChoicesIsPermutation(rest, rng, pressure, round + 2);
    SameLength(tail, rest);
  }

  /** Round j of power of two choices; `now` is the first of the two values it draws. */
  lemma {:induction false} PairRound(taken: seq<nat>, remaining: seq<nat>, rng: Rng, pressure: nat -> real, round: nat,
                                     j: nat, now: nat, n: nat)
    returns (left: seq<nat>, p: nat)
    requires now == round + 2 * j && Sound(rng) && j < |remaining| && Ascending(remaining) && Within(remaining, n)
    requires taken == TwoChoices(remaining, rng, pressure, round)
    ensures left != [] && Within(left, n) && p == PickOf(left, rng, pressure, now)
    ensures TakesNext(taken, remaining, j, left, p)
    decreases j
  {
    var k, rest, tail := PairStep(remaining, rng, pressure, round);
    if j == 0 {
      left, p := remaining, k;
      FirstTaking(remaining, k, tail);
    } else {
      RemoveKeepsOrder(remaining, k, n);
      left, p := PairRound(tail, rest, rng, pressure, round + 2, j - 1, now, n);
      LaterTaking(remaining, k, tail, j, left, p);
    }
  }

  /** Round j of the p2c strategy over the candidates by key: what is left is in that order, and the pressure is that of
      the candidates themselves. */
  lemma PressureRound(xs: seq<Expanded>, rng: Rng, pressure: Expanded -> real, j: nat)
    returns (left: seq<nat>, p: nat, a: nat, b: nat)
    requires Sound(rng) && j < |xs|
    ensures ByKeys(Base(xs), xs)
    ensures var at := (i: nat) => if i < |Base(xs)| then pressure(Base(xs)[i]) else 0.0;
      var taken := P2COrder(|xs|, Some(rng), PressureAt(Base(xs), pressure));
      && TakesNext(taken, Indices(|xs|), j, left, p) && left[p] < |xs|
      && Picked(Base(xs), taken)[j] == CandOf(Base(xs)[left[p]])
      && TakesByPressure(left, rng, 2 * j, at, p, a, b)
  {
    BaseIsByKeys(xs);
    var at := PressureAt(Base(xs), pressure);
    left, p := PairRound(TwoChoices(Indices(|xs|), rng, at, 0), Indices(|xs|), rng, at, 0, j, 2 * j, |xs|);
    a, b := PickByPressure(left, rng, at, 2 * j);
  }
}
