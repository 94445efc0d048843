/** The strategies with a cursor (internal/router/strategies_sequential.go, cursor.go): round-robin turns and the
    accounts fill-first hands out. */
module RouteTurns {
  import opened StableSorting
  import opened RouteOrder
  import opened RouteGroups

  // --- the cursor ---

  function Itoa(n: nat): string {
    if n < 10 then [Digit(n)] else Itoa(n / 10) + [Digit(n % 10)]
  }

  function Digit(d: nat): char
    requires d < 10
  {
    ['0', '1', '2', '3', '4', '5', '6', '7', '8', '9'][d]
  }

  function RRKey(combo: string, tier: nat): string { combo + "#" + Itoa(tier) }

  lemma {:induction false} ItoaInjective(m: nat, n: nat)
    requires Itoa(m) == Itoa(n)
    ensures m == n
  {
    var s, t := Itoa(m), Itoa(n);
    assert s[|s| - 1] == Digit(m % 10) && t[|t| - 1] == Digit(n % 10);
    if m >= 10 && n >= 10 {
      assert s[..|s| - 1] == Itoa(m / 10) && t[..|t| - 1] == Itoa(n / 10);
      ItoaInjective(m / 10, n / 10);
    } else {
      ItoaNonEmpty(m / 10);
      ItoaNonEmpty(n / 10);
    }
  }

  lemma {:induction false} ItoaNonEmpty(n: nat)
    ensures Itoa(n) != "" && forall i | 0 <= i < |Itoa(n)| :: Itoa(n)[i] != '#'
  {
    if n >= 10 { ItoaNonEmpty(n / 10); }
  }

  lemma {:induction false} SplitAtLastHash(a: string, b: string, s: string, t: string)
    requires a + "#" + s == b + "#" + t
    requires (forall i | 0 <= i < |s| :: s[i] != '#') && (forall i | 0 <= i < |t| :: t[i] != '#')
    ensures a == b && s == t
  {
    var x, y := a + "#" + s, b + "#" + t;
    assert x[|x| - 1] == if s == "" then '#' else s[|s| - 1];
    assert y[|y| - 1] == if t == "" then '#' else t[|t| - 1];
    if s != "" && t != "" {
      assert x[..|x| - 1] == a + "#" + s[..|s| - 1] && y[..|y| - 1] == b + "#" + t[..|t| - 1];
      SplitAtLastHash(a, b, s[..|s| - 1], t[..|t| - 1]);
      assert s == s[..|s| - 1] + [s[|s| - 1]] && t == t[..|t| - 1] + [t[|t| - 1]];
    } else {
      assert s == "" && t == "";
      assert x[..|x| - 1] == a && y[..|y| - 1] == b;
    }
  }

  /** Tiers of whatever combos never share a cursor, even when a combo's name holds a '#'. */
  lemma RRKeyInjective(a: string, b: string, i: nat, j: nat)
    requires RRKey(a, i) == RRKey(b, j)
    ensures a == b && i == j
  {
    ItoaNonEmpty(i);
    ItoaNonEmpty(j);
    SplitAtLastHash(a, b, Itoa(i), Itoa(j));
    ItoaInjective(i, j);
  }

  function StepAt(): Expanded -> int { (e: Expanded) => e.step }

  type Turns = map<string, int>

  /** The stored index, or 0 when there is none or the tier has shrunk below it. */
  function Start(m: Turns, key: string, n: nat): nat {
    if key in m && 0 <= m[key] < n then m[key] else 0
  }

  function Advanced(m: Turns, key: string, n: nat): Turns {
    if n == 0 then m else m[key := (Start(m, key, n) + 1) % n]
  }

  function ProviderLess(): (Expanded, Expanded) -> bool { (a: Expanded, b: Expanded) => Less(a.provider, b.provider) }

  function ByProvider(): (Expanded, Expanded) -> bool { Then(StepLess(), Then(ProviderLess(), ByKey())) }

  function FillKey(e: Expanded): string { RRKey(e.provider, e.step) }

  /** `accounts` is the step's allow-list, or else the provider's accounts. */
  function FilledFrom(m: Turns, rows: seq<Expanded>, accounts: Expanded -> seq<string>): (seq<Cand>, Turns)
    decreases |rows|
  {
    if rows == [] then ([], m)
    else
      var ids := accounts(rows[0]);
      Prefixed([Taken(m, rows[0], ids)], FilledFrom(Advanced(m, FillKey(rows[0]), |ids|), rows[1..], accounts))
  }

  function Prefixed(out: seq<Cand>, rest: (seq<Cand>, Turns)): (seq<Cand>, Turns) { (out + rest.0, rest.1) }

  /** The account written into a candidate, if its provider has any. */
  function Taken(m: Turns, row: Expanded, ids: seq<string>): Cand {
    if ids == [] then CandOf(row) else CandOf(row).(credential := ids[Start(m, FillKey(row), |ids|)])
  }

  lemma FillStep(m: Turns, rows: seq<Expanded>, accounts: Expanded -> seq<string>, out: seq<Cand>)
    requires rows != []
    ensures var ids := accounts(rows[0]);
      Prefixed(out, FilledFrom(m, rows, accounts))
      == Prefixed(out + [Taken(m, rows[0], ids)], FilledFrom(Advanced(m, FillKey(rows[0]), |ids|), rows[1..], accounts))
  {
    var ids := accounts(rows[0]);
    var rest := FilledFrom(Advanced(m, FillKey(rows[0]), |ids|), rows[1..], accounts).0;
    assert out + ([Taken(m, rows[0], ids)] + rest) == (out + [Taken(m, rows[0], ids)]) + rest;
  }

  class Cursor {
    var roundRobin: Turns
    var fillFirst: Turns

    constructor ()
      ensures roundRobin == map[] && fillFirst == map[]
    {
      roundRobin, fillFirst := map[], map[];
    }

    method NextRR(key: string, n: nat) returns (idx: nat)
      modifies this`roundRobin
      ensures idx == Start(old(roundRobin), key, n)
      ensures roundRobin == Advanced(old(roundRobin), key, n)
    {
      if n == 0 {
        return 0;
      }
      var at := 0;
      if key in roundRobin {
        at := roundRobin[key];
      }
      if at < 0 || at >= n {
        at := 0;
      }
      roundRobin := roundRobin[key := (at + 1) % n];
      return at;
    }

    method NextFill(key: string, n: nat) returns (idx: nat)
      modifies this`fillFirst
      ensures idx == Start(old(fillFirst), key, n)
      ensures fillFirst == Advanced(old(fillFirst), key, n)
    {
      if n == 0 {
        return 0;
      }
      var at := 0;
      if key in fillFirst {
        at := fillFirst[key];
      }
      if at < 0 || at >= n {
        at := 0;
      }
      fillFirst := fillFirst[key := (at + 1) % n];
      return at;
    }

    /** Sorted by step, provider and key, each candidate takes the next account of its provider. */
    method FillFirst(xs: seq<Expanded>, accounts: Expanded -> seq<string>) returns (out: seq<Cand>)
      modifies this`fillFirst
      ensures (out, fillFirst) == FilledFrom(old(fillFirst), StableSort(ByProvider(), xs), accounts)
    {
      var rows := StableSort(ByProvider(), xs);
      ghost var all := FilledFrom(fillFirst, rows, accounts);
      assert rows[0..] == rows && [] + all.0 == all.0;
      out := [];
      for i := 0 to |rows|
        invariant all == Prefixed(out, FilledFrom(fillFirst, rows[i..], accounts))
      {
        ghost var m := fillFirst;
        var c := CandOf(rows[i]);
        var ids := accounts(rows[i]);
        if |ids| > 0 {
          var start := NextFill(FillKey(rows[i]), |ids|);
          c := c.(credential := ids[start]);
        }
        assert rows[i..][1..] == rows[i + 1..];
        FillStep(m, rows[i..], accounts, out);
        out := out + [c];
      }
      assert out + [] == out;
    }

    static method Rotate(group: seq<Expanded>, start: nat) returns (tier: seq<Cand>)
      requires group != [] ==> start < |group|
      ensures group != [] ==> tier == Rotated(Cands(group), start)
    {
      ghost var goal := Rotated(Cands(group), start);
      tier := [];
      for k := 0 to |group|
        invariant group != [] ==> tier == goal[..k]
      {
        var i := (start + k) % |group|;
        RotatedAt(Cands(group), start, k);
        tier := tier + [CandOf(group[i])];
        assert goal[..k + 1] == goal[..k] + [goal[k]];
      }
    }

    /** One tier's turn: its candidates by key, rotated to the cursor, which moves on. */
    method TakeTurn(combo: string, step: nat, group: seq<Expanded>) returns (tier: seq<Cand>)
      requires group != []
      modifies this`roundRobin
      ensures tier == Turn(old(roundRobin), combo, step, group)
      ensures roundRobin == Advanced(old(roundRobin), RRKey(combo, step), |group|)
    {
      var sorted := StableSort(ByKey(), group);
      var start := NextRR(RRKey(combo, step), |group|);
      tier := Rotate(sorted, start);
    }

    /** Each tier, in step order, takes its turn. */
    method RoundRobin(combo: string, xs: seq<Expanded>)
      returns (out: seq<Cand>, ghost groups: seq<seq<Expanded>>, ghost steps: seq<int>)
      modifies this`roundRobin
      ensures IsGrouping(groups, steps, xs, StepAt())
      ensures forall i | 0 <= i < |steps| :: steps[i] >= 0
      ensures out == Flatten(AllTurns(old(roundRobin), combo, steps, groups))
      ensures roundRobin == After(old(roundRobin), TierTurns(combo, steps, groups))
    {
      var gs, ss := GroupBy(xs, StepAt());
      groups, steps := gs, ss;
      StepsAreNatural(gs, ss, xs);
      ghost var was := roundRobin;
      out := [];
      for i := 0 to |gs|
        invariant out == Flatten(AllTurns(was, combo, ss, gs)[..i])
        invariant Untouched(was, roundRobin, combo, ss, gs, i)
        invariant roundRobin == After(was, TierTurns(combo, ss, gs)[..i])
      {
        ghost var mid := roundRobin;
        var tier := TakeTurn(combo, ss[i], gs[i]);
        TurnTaken(was, mid, combo, ss, gs, i);
        AfterOne(was, TierTurns(combo, ss, gs), i);
        out := out + tier;
      }
      assert AllTurns(was, combo, ss, gs)[..|gs|] == AllTurns(was, combo, ss, gs);
      assert TierTurns(combo, ss, gs)[..|gs|] == TierTurns(combo, ss, gs);
    }
  }

  function Uncredited(cs: seq<Cand>): seq<Cand> {
    seq(|cs|, i requires 0 <= i < |cs| => cs[i].(credential := ""))
  }

  lemma {:induction false} FillKeepsRows(m: Turns, rows: seq<Expanded>, accounts: Expanded -> seq<string>)
    ensures Uncredited(FilledFrom(m, rows, accounts).0) == Cands(rows)
    decreases |rows|
  {
    if rows != [] {
      var ids := accounts(rows[0]);
      FillKeepsRows(Advanced(m, FillKey(rows[0]), |ids|), rows[1..], accounts);
      var c := FilledFrom(m, rows, accounts).0;
      assert Uncredited(c) == [c[0].(credential := "")] + Uncredited(c[1..]);
      assert Cands(rows) == [CandOf(rows[0])] + Cands(rows[1..]);
    }
  }

  /** But for the accounts it writes in, fill-first too neither drops nor repeats a candidate. */
  lemma FillFirstIsPermutation(m: Turns, xs: seq<Expanded>, accounts: Expanded -> seq<string>)
    ensures multiset(Uncredited(FilledFrom(m, StableSort(ByProvider(), xs), accounts).0)) == multiset(Cands(xs))
  {
    FillKeepsRows(m, StableSort(ByProvider(), xs), accounts);
    OrderIsPermutation(ByProvider(), xs);
  }

  /** The fill-first cursors after some rows. */
  function FilledTurns(m: Turns, rows: seq<Expanded>, accounts: Expanded -> seq<string>): Turns
    decreases |rows|
  {
    if rows == [] then m else FilledTurns(Advanced(m, FillKey(rows[0]), |accounts(rows[0])|), rows[1..], accounts)
  }

  /** A row takes the account at its cursor, as the rows before it left it. */
  lemma {:induction false} FilledAt(m: Turns, rows: seq<Expanded>, accounts: Expanded -> seq<string>, i: nat)
    requires i < |rows|
    ensures var out := FilledFrom(m, rows, accounts).0;
      |out| == |rows| && out[i] == Taken(FilledTurns(m, rows[..i], accounts), rows[i], accounts(rows[i]))
    decreases |rows|
  {
    var m' := Advanced(m, FillKey(rows[0]), |accounts(rows[0])|);
    FilledLength(m', rows[1..], accounts);
    if i > 0 {
      FilledAt(m', rows[1..], accounts, i - 1);
      assert rows[..i][1..] == rows[1..][..i - 1];
    }
  }

  lemma {:induction false} FilledLength(m: Turns, rows: seq<Expanded>, accounts: Expanded -> seq<string>)
    ensures |FilledFrom(m, rows, accounts).0| == |rows|
    decreases |rows|
  {
    if rows != [] { FilledLength(Advanced(m, FillKey(rows[0]), |accounts(rows[0])|), rows[1..], accounts); }
  }

  lemma {:induction false} FilledTurnsStep(m: Turns, rows: seq<Expanded>, accounts: Expanded -> seq<string>, i: nat)
    requires i < |rows|
    ensures FilledTurns(m, rows[..i + 1], accounts)
         == Advanced(FilledTurns(m, rows[..i], accounts), FillKey(rows[i]), |accounts(rows[i])|)
    decreases |rows|
  {
    var m' := Advanced(m, FillKey(rows[0]), |accounts(rows[0])|);
    assert rows[..i + 1][1..] == rows[1..][..i];
    if i > 0 {
      FilledTurnsStep(m', rows[1..], accounts, i - 1);
      assert rows[..i][1..] == rows[1..][..i - 1];
    }
  }

  /** Two neighbouring rows of one provider and step get the same account exactly when there is only one (or none to
      choose from): the cursor moves on with every row. */
  lemma FillFirstStaysIff(m: Turns, rows: seq<Expanded>, accounts: Expanded -> seq<string>, i: nat)
    requires i + 1 < |rows| && FillKey(rows[i]) == FillKey(rows[i + 1]) && accounts(rows[i]) == accounts(rows[i + 1])
    requires forall a, b :: 0 <= a < b < |accounts(rows[i])| ==> accounts(rows[i])[a] != accounts(rows[i])[b]
    ensures var out := FilledFrom(m, rows, accounts).0;
      |out| == |rows| && (out[i].credential == out[i + 1].credential <==> |accounts(rows[i])| <= 1)
  {
    var n := |accounts(rows[i])|;
    var at := FilledTurns(m, rows[..i], accounts);
    FilledAt(m, rows, accounts, i);
    FilledAt(m, rows, accounts, i + 1);
    FilledTurnsStep(m, rows, accounts, i);
    if n > 0 { WrapOnce(Start(at, FillKey(rows[i]), n) + 1, n); }
  }

  /** Demotion does not reach a fill-first order: an incompatible candidate of an earlier step stays in front of a
      compatible one of a later step that has an account, whether it has one itself or not. */
  lemma FillFirstEscapesDemotion(m: Turns, a: Expanded, b: Expanded, accounts: Expanded -> seq<string>)
    requires a.step < b.step && !a.compatible && b.compatible && CandOf(a) != CandOf(b)
    requires forall e | e in [a, b] :: '\0' !in e.provider && '\0' !in e.model
    requires accounts(b) != [] && "" !in accounts(b)
    ensures var order := FilledFrom(m, StableSort(ByProvider(), [a, b]), accounts).0;
      && |order| == 2 && order[0].(credential := "") == CandOf(a) && order[1].(credential := "") == CandOf(b)
      && !SuitableFirst([a, b], Demoted(order, [a, b]))
  {
    var xs := [a, b];
    SortedPair(a, b);
    FilledAt(m, xs, accounts, 0);
    FilledAt(m, xs, accounts, 1);
    var order := FilledFrom(m, xs, accounts).0;
    assert a in xs && b in xs;
    if StableKey(CandOf(a)) == StableKey(CandOf(b)) { KeyDeterminesCredential(CandOf(a), CandOf(b)); }
    PairFits(a, b);
    forall c | c in order && StableKey(c) in CompatOf(xs) ensures c.credential == "" { KnownIsBare(order, xs, c); }
    assert Suits(xs)(order[1]) && !Suits(xs)(order[0]);
    assert !Fits(CompatOf(xs))(order[0]) && !Fits(CompatOf(xs))(order[1]);
    DemotedSuitsFirstIff(order, xs);
  }

  lemma SortedPair(a: Expanded, b: Expanded)
    requires a.step < b.step
    ensures StableSort(ByProvider(), [a, b]) == [a, b]
  {
    assert [a, b][1..] == [b] && [b][1..] == [];
    assert StableSort(ByProvider(), [b]) == [b];
    assert StepLess()(a, b) && !StepLess()(b, a) && !Ties(StepLess(), b, a);
  }

  lemma PairFits(a: Expanded, b: Expanded)
    requires StableKey(CandOf(a)) != StableKey(CandOf(b))
    ensures Fits(CompatOf([a, b]))(CandOf(a)) == a.compatible && Fits(CompatOf([a, b]))(CandOf(b)) == b.compatible
  {
    assert [a, b][..1] == [a] && [a][..0] == [];
  }

  ghost predicate SameStart(m: Turns, m': Turns, combo: string, step: nat, n: nat) {
    Start(m, RRKey(combo, step), n) == Start(m', RRKey(combo, step), n)
  }

  lemma OtherTiersKeepStart(m: Turns, combo: string, i: nat, ni: nat, j: nat, nj: nat)
    requires i != j
    ensures SameStart(m, Advanced(m, RRKey(combo, i), ni), combo, j, nj)
  {
    if RRKey(combo, i) == RRKey(combo, j) { RRKeyInjective(combo, combo, i, j); }
  }

  /** The cursors of tiers i and later still are what they were. */
  ghost predicate Untouched(was: Turns, now: Turns, combo: string, steps: seq<int>, groups: seq<seq<Expanded>>, i: nat)
    requires |groups| == |steps| && forall j | 0 <= j < |steps| :: steps[j] >= 0
  {
    forall j | i <= j < |groups| :: SameStart(was, now, combo, steps[j], |groups[j]|)
  }

  lemma TurnTaken(was: Turns, mid: Turns, combo: string, steps: seq<int>, groups: seq<seq<Expanded>>, i: nat)
    requires |groups| == |steps| && Ascending(steps) && forall j | 0 <= j < |steps| :: steps[j] >= 0
    requires i < |groups| && Untouched(was, mid, combo, steps, groups, i)
    ensures Untouched(was, Advanced(mid, RRKey(combo, steps[i]), |groups[i]|), combo, steps, groups, i + 1)
    ensures var turns := AllTurns(was, combo, steps, groups);
      Flatten(turns[..i + 1]) == Flatten(turns[..i]) + Turn(mid, combo, steps[i], groups[i])
  {
    var turns := AllTurns(was, combo, steps, groups);
    assert SameStart(was, mid, combo, steps[i], |groups[i]|);
    assert turns[..i + 1] == turns[..i] + [turns[i]];
    FlattenAppend(turns[..i], turns[i]);
    forall j | i + 1 <= j < |groups|
      ensures SameStart(was, Advanced(mid, RRKey(combo, steps[i]), |groups[i]|), combo, steps[j], |groups[j]|)
    {
      assert SameStart(was, mid, combo, steps[j], |groups[j]|);
      OtherTiersKeepStart(mid, combo, steps[i], |groups[i]|, steps[j], |groups[j]|);
    }
  }

  function Turn(m: Turns, combo: string, step: nat, group: seq<Expanded>): seq<Cand> {
    Rotated(Cands(StableSort(ByKey(), group)), Start(m, RRKey(combo, step), |group|))
  }

  function AllTurns(m: Turns, combo: string, steps: seq<int>, groups: seq<seq<Expanded>>): seq<seq<Cand>>
    requires |groups| == |steps| && forall i | 0 <= i < |steps| :: steps[i] >= 0
  {
    seq(|groups|, i requires 0 <= i < |groups| => Turn(m, combo, steps[i], groups[i]))
  }

  lemma StepsAreNatural(groups: seq<seq<Expanded>>, steps: seq<int>, xs: seq<Expanded>)
    requires IsGrouping(groups, steps, xs, StepAt())
    ensures forall i | 0 <= i < |steps| :: steps[i] >= 0
  {
    forall i | 0 <= i < |steps| ensures steps[i] >= 0 {
      KeepAll(In(StepAt(), steps[i]), xs);
      assert groups[i] != [];
      assert In(StepAt(), steps[i])(groups[i][0]);
      assert steps[i] == groups[i][0].step;
    }
  }

  lemma TurnPermutes(m: Turns, combo: string, step: nat, group: seq<Expanded>)
    ensures multiset(Turn(m, combo, step, group)) == multiset(Cands(group))
  {
    var s := Cands(StableSort(ByKey(), group));
    var k := Start(m, RRKey(combo, step), |group|);
    OrderIsPermutation(ByKey(), group);
    if k <= |s| { assert s == s[..k] + s[k..]; }
  }

  lemma {:induction false} TurnsPermute(m: Turns, combo: string, steps: seq<int>, groups: seq<seq<Expanded>>)
    requires |groups| == |steps| && forall i | 0 <= i < |steps| :: steps[i] >= 0
    ensures multiset(Flatten(AllTurns(m, combo, steps, groups))) == multiset(Cands(Flatten(groups)))
  {
    if groups != [] {
      var turns := AllTurns(m, combo, steps, groups);
      TurnPermutes(m, combo, steps[0], groups[0]);
      TurnsPermute(m, combo, steps[1..], groups[1..]);
      assert turns[1..] == AllTurns(m, combo, steps[1..], groups[1..]);
      FlattenHead(turns);
      CandsConcat(groups[0], Flatten(groups[1..]));
    }
  }

  lemma FlattenHead(groups: seq<seq<Cand>>)
    requires groups != []
    ensures multiset(Flatten(groups)) == multiset(groups[0]) + multiset(Flatten(groups[1..]))
  {
  }

  lemma CandsConcat(a: seq<Expanded>, b: seq<Expanded>)
    ensures multiset(Cands(a + b)) == multiset(Cands(a)) + multiset(Cands(b))
  {
    assert Cands(a + b) == Cands(a) + Cands(b);
  }

  /** Round-robin orders neither drop nor repeat a candidate. */
  lemma RoundRobinIsPermutation(m: Turns, combo: string, xs: seq<Expanded>, groups: seq<seq<Expanded>>, steps: seq<int>)
    requires IsGrouping(groups, steps, xs, StepAt())
    requires forall i | 0 <= i < |steps| :: steps[i] >= 0
    ensures multiset(Flatten(AllTurns(m, combo, steps, groups))) == multiset(Cands(xs))
  {
    TurnsPermute(m, combo, steps, groups);
    GroupingIsPermutation(groups, steps, xs, StepAt());
    CandsMultiset(Flatten(groups), xs);
  }

  lemma WrapOnce(x: nat, n: nat)
    requires 0 < n && x < 2 * n
    ensures x % n == if x < n then x else x - n
  {
  }

  function Rotated<T>(s: seq<T>, start: nat): seq<T>
  {
    if start <= |s| then s[start..] + s[..start] else s
  }

  lemma RotatedAt<T>(s: seq<T>, start: nat, k: nat)
    requires start < |s| && k < |s|
    ensures |Rotated(s, start)| == |s| && Rotated(s, start)[k] == s[(start + k) % |s|]
  {
    WrapOnce(start + k, |s|);
  }

  lemma {:induction false} FlattenAppend<T>(a: seq<seq<T>>, b: seq<T>)
    ensures Flatten(a + [b]) == Flatten(a) + b
  {
    if a == [] {
      assert [b][1..] == [];
    } else {
      assert (a + [b])[1..] == a[1..] + [b];
      FlattenAppend(a[1..], b);
    }
  }

  // --- fairness ---

  datatype TurnCall = TurnCall(key: string, n: nat)

  /** The indices handed out for one key along a run of calls for any keys. */
  function Leads(m: Turns, calls: seq<TurnCall>, key: string): seq<nat>
    decreases |calls|
  {
    if calls == [] then []
    else
      (if calls[0].key == key then [Start(m, key, calls[0].n)] else [])
      + Leads(Advanced(m, calls[0].key, calls[0].n), calls[1..], key)
  }

  function Times<T(==)>(leads: seq<T>, i: T): nat {
    if leads == [] then 0 else (if leads[0] == i then 1 else 0) + Times(leads[1..], i)
  }

  function Next(at: nat, n: nat): nat { if at + 1 < n then at + 1 else 0 }

  function Nth(start: nat, n: nat, j: nat): nat
    decreases j
  {
    if j == 0 then start else Nth(Next(start, n), n, j - 1)
  }

  /** The turns of an unchanged tier go round from wherever its cursor stands. */
  lemma {:induction false} LeadsGoRound(m: Turns, calls: seq<TurnCall>, key: string, n: nat, j: nat)
    requires n > 0 && forall k | 0 <= k < |calls| && calls[k].key == key :: calls[k].n == n
    requires j < |Leads(m, calls, key)|
    ensures Leads(m, calls, key)[j] == Nth(Start(m, key, n), n, j)
    decreases |calls|
  {
    var m' := Advanced(m, calls[0].key, calls[0].n);
    if calls[0].key == key {
      if j > 0 {
        LeadsGoRound(m', calls[1..], key, n, j - 1);
        WrapOnce(Start(m, key, n) + 1, n);
        assert Start(m', key, n) == Next(Start(m, key, n), n);
      }
    } else {
      LeadsGoRound(m', calls[1..], key, n, j);
    }
  }

  /** How far the cursor is behind candidate i. */
  function Ahead(start: nat, i: nat, n: nat): nat
    requires start < n && i < n
  {
    if i >= start then i - start else i + n - start
  }

  /** The turns, of the next len, that go to a candidate `ahead` places ahead of the cursor. */
  function Share(len: nat, ahead: nat, n: nat): nat
    requires ahead < n
    decreases len
  {
    if len == 0 then 0 else if ahead == 0 then 1 + Share(len - 1, n - 1, n) else Share(len - 1, ahead - 1, n)
  }

  lemma {:induction false} TimesAreShare(leads: seq<nat>, start: nat, i: nat, n: nat)
    requires start < n && i < n
    requires forall j | 0 <= j < |leads| :: leads[j] == Nth(start, n, j)
    ensures Times(leads, i) == Share(|leads|, Ahead(start, i, n), n)
    decreases |leads|
  {
    if leads != [] {
      var rest := leads[1..];
      forall j | 0 <= j < |rest| ensures rest[j] == Nth(Next(start, n), n, j) {
        assert rest[j] == leads[j + 1];
      }
      TimesAreShare(rest, Next(start, n), i, n);
    }
  }

  /** Whole rounds of n in len turns. */
  function Rounds(len: nat, n: nat): (rounds: nat)
    requires n > 0
    ensures rounds * n <= len < rounds * n + n
    decreases len
  {
    if len < n then 0 else 1 + Rounds(len - n, n)
  }

  /** Coming up to its turn: nothing, or its share of what is left after it. */
  lemma {:induction false} ShareAfterTurn(len: nat, ahead: nat, n: nat)
    requires ahead < n
    ensures Share(len, ahead, n) == if len <= ahead then 0 else 1 + Share(len - ahead - 1, n - 1, n)
    decreases len
  {
    if len > 0 && ahead > 0 { ShareAfterTurn(len - 1, ahead - 1, n); }
  }

  /** A whole round gives everyone one turn. */
  lemma {:induction false} ShareOfRound(len: nat, ahead: nat, n: nat)
    requires ahead < n <= len
    ensures Share(len, ahead, n) == 1 + Share(len - n, ahead, n)
    decreases len
  {
    ShareAfterTurn(len, ahead, n);
    ShareAfterTurn(len - n, ahead, n);
    var rest := len - ahead - 1;
    ShareAfterTurn(rest, n - 1, n);
    if len - n > ahead { ShareOfRound(rest, n - 1, n); }
  }

  lemma {:induction false} ShareIsFair(len: nat, ahead: nat, n: nat)
    requires ahead < n
    ensures Rounds(len, n) <= Share(len, ahead, n) <= Rounds(len + n - 1, n)
    decreases len
  {
    if len >= n {
      ShareOfRound(len, ahead, n);
      ShareIsFair(len - n, ahead, n);
    } else {
      ShareAfterTurn(len, ahead, n);
      if len > ahead { ShareAfterTurn(len - ahead - 1, n - 1, n); }
    }
  }

  /** Over any run in which a tier keeps its n candidates, whatever the cursor held before and whatever other tiers do
      in between, each of them leads the floor or the ceiling of an n-th of the tier's turns. */
  lemma RoundRobinIsFair(m: Turns, calls: seq<TurnCall>, key: string, n: nat, i: nat)
    requires i < n && forall k | 0 <= k < |calls| && calls[k].key == key :: calls[k].n == n
    ensures var leads := Leads(m, calls, key);
      Rounds(|leads|, n) <= Times(leads, i) <= Rounds(|leads| + n - 1, n)
  {
    var leads := Leads(m, calls, key);
    forall j | 0 <= j < |leads| ensures leads[j] == Nth(Start(m, key, n), n, j) {
      LeadsGoRound(m, calls, key, n, j);
    }
    TimesAreShare(leads, Start(m, key, n), i, n);
    ShareIsFair(|leads|, Ahead(Start(m, key, n), i, n), n);
  }

  // --- fairness of whole resolves ---

  /** One tier's turn in a resolve. */
  datatype TierTurn = TierTurn(combo: string, step: nat, group: seq<Expanded>)

  predicate IsTier(t: TierTurn, combo: string, step: nat) { t.combo == combo && t.step == step }

  /** The turns one resolve takes, tier by tier. */
  function TierTurns(combo: string, steps: seq<int>, groups: seq<seq<Expanded>>): seq<TierTurn>
    requires |groups| == |steps| && forall i | 0 <= i < |steps| :: steps[i] >= 0
  {
    seq(|groups|, i requires 0 <= i < |groups| => TierTurn(combo, steps[i], groups[i]))
  }

  function CallOf(t: TierTurn): TurnCall { TurnCall(RRKey(t.combo, t.step), |t.group|) }

  function AdvancedBy(m: Turns, t: TierTurn): Turns { Advanced(m, RRKey(t.combo, t.step), |t.group|) }

  function After(m: Turns, turns: seq<TierTurn>): Turns
    decreases |turns|
  {
    if turns == [] then m else After(AdvancedBy(m, turns[0]), turns[1..])
  }

  lemma {:induction false} AfterOne(m: Turns, turns: seq<TierTurn>, i: nat)
    requires i < |turns|
    ensures After(m, turns[..i + 1]) == AdvancedBy(After(m, turns[..i]), turns[i])
    decreases |turns|
  {
    assert turns[..i + 1][1..] == turns[1..][..i];
    if i > 0 {
      AfterOne(AdvancedBy(m, turns[0]), turns[1..], i - 1);
      assert turns[..i][1..] == turns[1..][..i - 1];
    }
  }

  /** The candidates one tier puts first along a run of turns of any tiers. */
  function TierLeads(m: Turns, turns: seq<TierTurn>, combo: string, step: nat): seq<Cand>
    requires forall t | t in turns :: t.group != []
    decreases |turns|
  {
    if turns == [] then []
    else
      assert forall t | t in turns[1..] :: t in turns;
      (if IsTier(turns[0], combo, step) then [LeadOf(m, turns[0])] else [])
      + TierLeads(AdvancedBy(m, turns[0]), turns[1..], combo, step)
  }

  function LeadOf(m: Turns, t: TierTurn): Cand
    requires t.group != []
  {
    CandOf(StableSort(ByKey(), t.group)[Start(m, RRKey(t.combo, t.step), |t.group|)])
  }

  /** It is the first of what the tier's turn puts out. */
  lemma LeadIsFirst(m: Turns, t: TierTurn)
    requires t.group != []
    ensures Turn(m, t.combo, t.step, t.group) != [] && Turn(m, t.combo, t.step, t.group)[0] == LeadOf(m, t)
  {
  }

  function SortedAt(group: seq<Expanded>): nat -> Cand {
    (i: nat) => if i < |group| then CandOf(StableSort(ByKey(), group)[i]) else Cand("", "", "")
  }

  /** Every turn has candidates, and those of this tier always the same. */
  ghost predicate KeepsTier(turns: seq<TierTurn>, combo: string, step: nat, group: seq<Expanded>) {
    forall t | t in turns :: t.group != [] && (IsTier(t, combo, step) ==> t.group == group)
  }

  lemma {:induction false} TierLeadsAreLeads(m: Turns, turns: seq<TierTurn>, combo: string, step: nat, group: seq<Expanded>)
    requires group != [] && KeepsTier(turns, combo, step, group)
    ensures TierLeads(m, turns, combo, step) == Mapped(SortedAt(group), Leads(m, Mapped(CallOf, turns), RRKey(combo, step)))
    decreases |turns|
  {
    if turns != [] {
      var rest := turns[1..];
      assert KeepsTier(rest, combo, step, group) by { assert forall u | u in rest :: u in turns; }
      TierLeadsAreLeads(AdvancedBy(m, turns[0]), rest, combo, step, group);
      LeadsHead(m, turns, RRKey(combo, step));
      LeadIsStart(m, turns[0], combo, step, group);
      var first := if CallOf(turns[0]).key == RRKey(combo, step) then [Start(m, RRKey(combo, step), |turns[0].group|)] else [];
      MappedConcat(SortedAt(group), first, Leads(AdvancedBy(m, turns[0]), Mapped(CallOf, rest), RRKey(combo, step)));
    }
  }

  lemma LeadIsStart(m: Turns, t: TierTurn, combo: string, step: nat, group: seq<Expanded>)
    requires t.group != [] && (IsTier(t, combo, step) ==> t.group == group)
    ensures (if IsTier(t, combo, step) then [LeadOf(m, t)] else [])
         == Mapped(SortedAt(group),
                   if CallOf(t).key == RRKey(combo, step) then [Start(m, RRKey(combo, step), |t.group|)] else [])
  {
    SameTierIff(t, combo, step);
  }

  lemma SameTierIff(t: TierTurn, combo: string, step: nat)
    ensures IsTier(t, combo, step) <==> RRKey(t.combo, t.step) == RRKey(combo, step)
  {
    if RRKey(t.combo, t.step) == RRKey(combo, step) { RRKeyInjective(t.combo, combo, t.step, step); }
  }

  lemma LeadsHead(m: Turns, turns: seq<TierTurn>, key: string)
    requires turns != []
    ensures var call := CallOf(turns[0]);
      Leads(m, Mapped(CallOf, turns), key)
      == (if call.key == key then [Start(m, key, call.n)] else [])
         + Leads(AdvancedBy(m, turns[0]), Mapped(CallOf, turns[1..]), key)
  {
    assert Mapped(CallOf, turns)[1..] == Mapped(CallOf, turns[1..]);
  }

  lemma MappedConcat<T, U>(f: T -> U, a: seq<T>, b: seq<T>)
    ensures Mapped(f, a + b) == Mapped(f, a) + Mapped(f, b)
  {
  }

  lemma {:induction false} TimesMapped(f: nat -> Cand, leads: seq<nat>, i: nat)
    requires forall j | 0 <= j < |leads| && f(leads[j]) == f(i) :: leads[j] == i
    ensures Times(Mapped(f, leads), f(i)) == Times(leads, i)
    decreases |leads|
  {
    if leads != [] {
      assert Mapped(f, leads)[1..] == Mapped(f, leads[1..]);
      assert forall j | 0 <= j < |leads[1..]| :: leads[1..][j] == leads[j + 1];
      TimesMapped(f, leads[1..], i);
    }
  }

  lemma {:induction false} LeadsInRange(m: Turns, calls: seq<TurnCall>, key: string, n: nat)
    requires n > 0 && forall k | 0 <= k < |calls| && calls[k].key == key :: calls[k].n == n
    ensures forall j | 0 <= j < |Leads(m, calls, key)| :: Leads(m, calls, key)[j] < n
    decreases |calls|
  {
    if calls != [] { LeadsInRange(Advanced(m, calls[0].key, calls[0].n), calls[1..], key, n); }
  }

  /** Over any run of resolves in which a tier keeps its n different candidates, from any cursors and whatever other tiers
      and combos do in between, each of them leads the tier the floor or the ceiling of an n-th of the time. */
  lemma RoundRobinLeadsFairly(m: Turns, turns: seq<TierTurn>, combo: string, step: nat, group: seq<Expanded>, e: Expanded)
    requires KeepsTier(turns, combo, step, group)
    requires e in group && forall i, j :: 0 <= i < j < |group| ==> CandOf(group[i]) != CandOf(group[j])
    ensures var leads, n := TierLeads(m, turns, combo, step), |group|;
      Rounds(|leads|, n) <= Times(leads, CandOf(e)) <= Rounds(|leads| + n - 1, n)
  {
    var calls, key, n := Mapped(CallOf, turns), RRKey(combo, step), |group|;
    KeepsTierCalls(turns, combo, step, group);
    TierLeadsAreLeads(m, turns, combo, step, group);
    var i := SortedDistinct(group, e);
    LeadsInRange(m, calls, key, n);
    TimesMapped(SortedAt(group), Leads(m, calls, key), i);
    RoundRobinIsFair(m, calls, key, n, i);
  }

  lemma KeepsTierCalls(turns: seq<TierTurn>, combo: string, step: nat, group: seq<Expanded>)
    requires KeepsTier(turns, combo, step, group)
    ensures forall k | 0 <= k < |turns| && CallOf(turns[k]).key == RRKey(combo, step) :: CallOf(turns[k]).n == |group|
  {
    forall k | 0 <= k < |turns| && CallOf(turns[k]).key == RRKey(combo, step) ensures CallOf(turns[k]).n == |group| {
      assert turns[k] in turns;
      SameTierIff(turns[k], combo, step);
    }
  }

  lemma SortedDistinct(group: seq<Expanded>, e: Expanded) returns (i: nat)
    requires e in group && forall i, j :: 0 <= i < j < |group| ==> CandOf(group[i]) != CandOf(group[j])
    ensures i < |group| && SortedAt(group)(i) == CandOf(e)
    ensures forall j: nat | j < |group| && SortedAt(group)(j) == CandOf(e) :: j == i
  {
    var sorted := StableSort(ByKey(), group);
    SortPermutes(ByKey(), group);
    assert e in multiset(sorted);
    i :| i < |sorted| && sorted[i] == e;
    CandsMultiset(sorted, group);
    OnlyOnce(Cands(group), Cands(sorted));
  }

  lemma OnlyOnce(a: seq<Cand>, b: seq<Cand>)
    requires multiset(a) == multiset(b) && forall i, j :: 0 <= i < j < |a| ==> a[i] != a[j]
    ensures forall i, j :: 0 <= i < j < |b| ==> b[i] != b[j]
  {
    DistinctMultiplicity(a);
    forall i, j | 0 <= i < j < |b| ensures b[i] != b[j] {
      if b[i] == b[j] { TwiceMultiplicity(b, i, j); }
    }
  }

  /** In one resolve a tier's turn comes out the same as if it were the only one. */
  lemma {:induction false} TiersAreIndependent(was: Turns, now: Turns, combo: string, steps: seq<int>,
                                               groups: seq<seq<Expanded>>, i: nat)
    requires |groups| == |steps| && Ascending(steps) && (forall j | 0 <= j < |steps| :: steps[j] >= 0 && groups[j] != [])
    requires i < |groups| && SameStart(was, now, combo, steps[i], |groups[i]|)
    ensures (forall t | t in TierTurns(combo, steps, groups) :: t.group != [])
    ensures TierLeads(now, TierTurns(combo, steps, groups), combo, steps[i]) == [AllTurns(was, combo, steps, groups)[i][0]]
    decreases |groups|
  {
    var turns := TierTurns(combo, steps, groups);
    var next := AdvancedBy(now, turns[0]);
    assert turns[1..] == TierTurns(combo, steps[1..], groups[1..]);
    LeadIsFirst(was, turns[i]);
    if i > 0 {
      OtherTiersKeepStart(now, combo, steps[0], |groups[0]|, steps[i], |groups[i]|);
      assert SameStart(was, next, combo, steps[1..][i - 1], |groups[1..][i - 1]|);
      TiersAreIndependent(was, next, combo, steps[1..], groups[1..], i - 1);
    } else {
      NoLeads(next, turns[1..], combo, steps[0]);
    }
  }

  lemma {:induction false} NoLeads(m: Turns, turns: seq<TierTurn>, combo: string, step: nat)
    requires forall t | t in turns :: t.group != [] && !IsTier(t, combo, step)
    ensures TierLeads(m, turns, combo, step) == []
    decreases |turns|
  {
    if turns != [] {
      assert turns[0] in turns && forall t | t in turns[1..] :: t in turns;
      NoLeads(AdvancedBy(m, turns[0]), turns[1..], combo, step);
    }
  }
}
