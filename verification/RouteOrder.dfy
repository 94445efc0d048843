/** How a resolve orders its candidates (internal/router/strategies_sequential.go, resolver.go,
    strategies_structural.go): the sorted strategies, demotion of incompatible candidates, grouping by step. Scores and
    reasons are left out, they only annotate. */
module RouteOrder {
  import B = ByteStrings
  import opened StableSorting
  import ComboExpand

  type Expanded = ComboExpand.Expanded

  datatype Option<T> = None | Some(value: T)

  datatype Cand = Cand(provider: string, model: string, credential: string)

  function CandOf(e: Expanded): Cand { Cand(e.provider, e.model, "") }

  function Cands(es: seq<Expanded>): (cs: seq<Cand>)
    ensures |cs| == |es| && forall i | 0 <= i < |es| :: cs[i] == CandOf(es[i])
  {
    seq(|es|, i requires 0 <= i < |es| => CandOf(es[i]))
  }

  function StableKey(c: Cand): string { c.provider + "\0" + c.model + "\0" + c.credential }

  predicate Less(a: string, b: string) { B.Le(a, b) && a != b }

  // --- comparisons ---

  function Then<T>(p: (T, T) -> bool, q: (T, T) -> bool): (T, T) -> bool {
    (x, y) => p(x, y) || (Ties(p, x, y) && q(x, y))
  }

  lemma ThenIsWeakOrder<T(!new)>(p: (T, T) -> bool, q: (T, T) -> bool)
    requires WeakOrder(p) && WeakOrder(q)
    ensures WeakOrder(Then(p, q))
  {
    var r := Then(p, q);
    forall x, y, z | r(x, y) && r(y, z) ensures r(x, z) {
      ThenTransitive(p, q, x, y, z);
    }
    forall x, y ensures Ties(r, x, y) <==> Ties(p, x, y) && Ties(q, x, y) {}
  }

  lemma ThenTransitive<T(!new)>(p: (T, T) -> bool, q: (T, T) -> bool, x: T, y: T, z: T)
    requires WeakOrder(p) && WeakOrder(q) && Then(p, q)(x, y) && Then(p, q)(y, z)
    ensures Then(p, q)(x, z)
  {
    if Ties(p, x, y) {
      if Ties(p, y, z) {
        assert Ties(p, x, z);
      } else {
        if !p(x, z) { NotLessTransitive(p, y, x, z); }
      }
    } else if Ties(p, y, z) {
      if !p(x, z) { NotLessTransitive(p, x, z, y); }
    }
  }

  function ByKey(): (Expanded, Expanded) -> bool { (a, b) => Less(StableKey(CandOf(a)), StableKey(CandOf(b))) }

  function StepLess(): (Expanded, Expanded) -> bool { (a: Expanded, b: Expanded) => a.step < b.step }

  /** Priority, fallback, fusion and pipeline: declared step, then the stable key. */
  function ByStep(): (Expanded, Expanded) -> bool { Then(StepLess(), ByKey()) }

  datatype Price = Known(micros: int) | Unpriced

  function Cheaper(price: Expanded -> Price): (Expanded, Expanded) -> bool {
    (a, b) => price(a).Known? && (price(b).Known? ==> price(a).micros < price(b).micros)
  }

  /** Cost: cheapest first, unpriced last, then the stable key. */
  function ByCost(price: Expanded -> Price): (Expanded, Expanded) -> bool { Then(Cheaper(price), ByKey()) }

  function Higher(score: Expanded -> real): (Expanded, Expanded) -> bool { (a, b) => score(a) > score(b) }

  /** Auto: best score first, then the stable key. */
  function ByScore(score: Expanded -> real): (Expanded, Expanded) -> bool { Then(Higher(score), ByKey()) }

  lemma ByKeyIsWeakOrder()
    ensures WeakOrder(ByKey())
    ensures forall a, b :: Ties(ByKey(), a, b) <==> StableKey(CandOf(a)) == StableKey(CandOf(b))
  {
    forall s: string, t: string ensures B.Le(s, t) || B.Le(t, s) { B.LeTotal(s, t); }
    forall s, t | B.Le(s, t) && B.Le(t, s) ensures s == t { B.LeAntisymmetric(s, t); }
    forall s, t, u | B.Le(s, t) && B.Le(t, u) ensures B.Le(s, u) { B.LeTransitive(s, t, u); }
  }

  lemma ComparisonsAreWeakOrders(price: Expanded -> Price, score: Expanded -> real)
    ensures WeakOrder(ByStep()) && WeakOrder(ByCost(price)) && WeakOrder(ByScore(score))
  {
    ByKeyIsWeakOrder();
    ThenIsWeakOrder(StepLess(), ByKey());
    ThenIsWeakOrder(Cheaper(price), ByKey());
    ThenIsWeakOrder(Higher(score), ByKey());
  }

  // --- the sorted strategies ---

  /** Every sorted strategy: sort, then render each row. */
  method OrderBy(less: (Expanded, Expanded) -> bool, xs: seq<Expanded>) returns (out: seq<Cand>)
    ensures out == Cands(StableSort(less, xs))
  {
    var rows := StableSort(less, xs);
    out := [];
    for i := 0 to |rows|
      invariant out == Cands(rows)[..i]
    {
      out := out + [CandOf(rows[i])];
    }
  }

  lemma WithoutHead<T>(s: seq<T>)
    requires s != []
    ensures multiset(s) == multiset{s[0]} + multiset(s[1..])
    ensures multiset(s[1..]) == multiset(s) - multiset{s[0]}
  {
    assert s == [s[0]] + s[1..];
  }

  lemma WithoutAt<T>(s: seq<T>, j: nat)
    requires j < |s|
    ensures multiset(s) == multiset{s[j]} + multiset(s[..j] + s[j + 1..])
    ensures multiset(s[..j] + s[j + 1..]) == multiset(s) - multiset{s[j]}
  {
    assert s == s[..j] + [s[j]] + s[j + 1..];
  }

  lemma IndexIn<T>(s: seq<T>, x: T) returns (j: nat)
    requires x in multiset(s)
    ensures j < |s| && s[j] == x
  {
    j :| j < |s| && s[j] == x;
  }

  function Mapped<T, U>(f: T -> U, s: seq<T>): (r: seq<U>)
    ensures |r| == |s| && forall i | 0 <= i < |s| :: r[i] == f(s[i])
  {
    seq(|s|, i requires 0 <= i < |s| => f(s[i]))
  }

  /** Rendering a rearranged list rearranges what is rendered. */
  lemma {:induction false} MappedMultiset<T, U>(f: T -> U, a: seq<T>, b: seq<T>)
    requires multiset(a) == multiset(b)
    ensures multiset(Mapped(f, a)) == multiset(Mapped(f, b))
    decreases |a|
  {
    if a == [] {
      assert |multiset(b)| == 0;
    } else {
      var rest := a[1..];
      WithoutHead(a);
      var j := IndexIn(b, a[0]);
      MappedWithoutHead(f, a);
      MappedWithoutAt(f, b, j);
      WithoutAt(b, j);
      MappedMultiset(f, rest, b[..j] + b[j + 1..]);
    }
  }

  lemma MappedWithoutHead<T, U>(f: T -> U, a: seq<T>)
    requires a != []
    ensures multiset(Mapped(f, a)) == multiset{f(a[0])} + multiset(Mapped(f, a[1..]))
  {
    WithoutHead(Mapped(f, a));
    assert Mapped(f, a)[1..] == Mapped(f, a[1..]);
  }

  lemma MappedWithoutAt<T, U>(f: T -> U, b: seq<T>, j: nat)
    requires j < |b|
    ensures multiset(Mapped(f, b)) == multiset{f(b[j])} + multiset(Mapped(f, b[..j] + b[j + 1..]))
  {
    WithoutAt(Mapped(f, b), j);
    assert Mapped(f, b)[..j] + Mapped(f, b)[j + 1..] == Mapped(f, b[..j] + b[j + 1..]);
  }

  lemma CandsMultiset(a: seq<Expanded>, b: seq<Expanded>)
    requires multiset(a) == multiset(b)
    ensures multiset(Cands(a)) == multiset(Cands(b))
  {
    MappedMultiset(CandOf, a, b);
    assert Cands(a) == Mapped(CandOf, a) && Cands(b) == Mapped(CandOf, b);
  }

  /** No sorted strategy drops, duplicates or invents a candidate. */
  lemma OrderIsPermutation(less: (Expanded, Expanded) -> bool, xs: seq<Expanded>)
    ensures multiset(Cands(StableSort(less, xs))) == multiset(Cands(xs))
  {
    SortPermutes(less, xs);
    CandsMultiset(StableSort(less, xs), xs);
  }

  lemma {:induction false} SortedUnique<T(!new)>(less: (T, T) -> bool, a: seq<T>, b: seq<T>)
    requires WeakOrder(less) && Sorted(less, a) && Sorted(less, b) && multiset(a) == multiset(b)
    requires forall x, y | x in a && y in a && Ties(less, x, y) :: x == y
    ensures a == b
    decreases |a|
  {
    assert |a| == |multiset(a)| == |multiset(b)| == |b|;
    if a != [] {
      var i := IndexIn(b, a[0]);
      var j := IndexIn(a, b[0]);
      SortedHeads(less, a, b, i, j);
      WithoutHead(a);
      WithoutHead(b);
      SortedTail(less, a);
      SortedTail(less, b);
      SortedUnique(less, a[1..], b[1..]);
    }
  }

  lemma SortedTail<T(!new)>(less: (T, T) -> bool, s: seq<T>)
    requires s != [] && Sorted(less, s)
    ensures Sorted(less, s[1..])
  {
  }

  lemma SortedHeads<T(!new)>(less: (T, T) -> bool, a: seq<T>, b: seq<T>, i: nat, j: nat)
    requires Sorted(less, a) && Sorted(less, b) && i < |b| && j < |a| && b[i] == a[0] && a[j] == b[0]
    requires forall x, y | x in a && y in a && Ties(less, x, y) :: x == y
    requires forall x :: !less(x, x)
    ensures a[0] == b[0]
  {
    assert !less(b[i], b[0]) && !less(a[j], a[0]);
    assert Ties(less, a[0], a[j]);
  }

  ghost predicate DistinctKeys(xs: seq<Expanded>) {
    forall i, j :: 0 <= i < j < |xs| ==> StableKey(CandOf(xs[i])) != StableKey(CandOf(xs[j]))
  }

  ghost predicate TiesAreKeys(less: (Expanded, Expanded) -> bool) {
    forall x, y | Ties(less, x, y) :: StableKey(CandOf(x)) == StableKey(CandOf(y))
  }

  lemma SortIsDeterministic(less: (Expanded, Expanded) -> bool, xs: seq<Expanded>, ys: seq<Expanded>)
    requires WeakOrder(less) && TiesAreKeys(less) && DistinctKeys(xs) && multiset(xs) == multiset(ys)
    ensures StableSort(less, xs) == StableSort(less, ys)
  {
    var a, b := StableSort(less, xs), StableSort(less, ys);
    SortPermutes(less, xs);
    SortPermutes(less, ys);
    SortIsStableSort(less, xs);
    SortIsStableSort(less, ys);
    forall x, y | x in a && y in a && Ties(less, x, y) ensures x == y {
      assert x in multiset(xs) && y in multiset(xs);
      var i :| 0 <= i < |xs| && xs[i] == x;
      var j :| 0 <= j < |xs| && xs[j] == y;
      assert i == j;
    }
    SortedUnique(less, a, b);
  }

  /** The comparisons tie only equal keys. */
  lemma ComparisonsTieKeys(price: Expanded -> Price, score: Expanded -> real)
    ensures TiesAreKeys(ByStep()) && TiesAreKeys(ByCost(price)) && TiesAreKeys(ByScore(score))
  {
    ByKeyIsWeakOrder();
    forall x, y
      ensures Ties(ByStep(), x, y) || Ties(ByCost(price), x, y) || Ties(ByScore(score), x, y) ==> Ties(ByKey(), x, y)
    {
    }
  }

  /** When no two candidates share a key, no sorted strategy's order depends on the order they were expanded in. */
  lemma OrderIsDeterministic(price: Expanded -> Price, score: Expanded -> real, xs: seq<Expanded>, ys: seq<Expanded>)
    requires DistinctKeys(xs) && multiset(xs) == multiset(ys)
    ensures StableSort(ByStep(), xs) == StableSort(ByStep(), ys)
    ensures StableSort(ByCost(price), xs) == StableSort(ByCost(price), ys)
    ensures StableSort(ByScore(score), xs) == StableSort(ByScore(score), ys)
  {
    ComparisonsAreWeakOrders(price, score);
    ComparisonsTieKeys(price, score);
    SortIsDeterministic(ByStep(), xs, ys);
    SortIsDeterministic(ByCost(price), xs, ys);
    SortIsDeterministic(ByScore(score), xs, ys);
  }

  // --- demotion ---

  function Keep<T>(p: T -> bool, s: seq<T>): seq<T> {
    if s == [] then [] else (if p(s[0]) then [s[0]] else []) + Keep(p, s[1..])
  }

  function Not<T>(p: T -> bool): T -> bool { x => !p(x) }

  /** The compatibility the last expanded candidate with this key has. */
  function CompatOf(xs: seq<Expanded>): map<string, bool> {
    if xs == [] then map[] else CompatOf(xs[..|xs| - 1])[StableKey(CandOf(xs[|xs| - 1])) := xs[|xs| - 1].compatible]
  }

  function Fits(m: map<string, bool>): Cand -> bool { c => StableKey(c) in m && m[StableKey(c)] }

  function First(p: Cand -> bool): (Cand, Cand) -> bool { (a, b) => p(a) && !p(b) }

  lemma {:induction false} InsertPartitioned(p: Cand -> bool, x: Cand, a: seq<Cand>, b: seq<Cand>)
    requires (forall i | 0 <= i < |a| :: p(a[i])) && (b != [] ==> !p(b[0]))
    ensures Insert(First(p), x, a + b) == if p(x) then [x] + a + b else a + [x] + b
  {
    if a == [] {
      assert a + b == b && [x] + a + b == [x] + b && a + [x] + b == [x] + b;
    } else {
      assert (a + b)[0] == a[0] && (a + b)[1..] == a[1..] + b;
      assert [x] + a + b == [x] + (a + b);
      if !p(x) {
        InsertPartitioned(p, x, a[1..], b);
        assert a + [x] + b == [a[0]] + (a[1..] + [x] + b);
      }
    }
  }

  lemma {:induction false} KeepAll<T>(p: T -> bool, s: seq<T>)
    ensures forall i | 0 <= i < |Keep(p, s)| :: p(Keep(p, s)[i])
  {
    if s != [] { KeepAll(p, s[1..]); }
  }

  lemma {:induction false} KeepSplits<T>(p: T -> bool, s: seq<T>)
    ensures multiset(s) == multiset(Keep(p, s)) + multiset(Keep(Not(p), s))
  {
    if s != [] {
      KeepSplits(p, s[1..]);
      WithoutHead(s);
    }
  }

  lemma {:induction false} SortByFlag(p: Cand -> bool, s: seq<Cand>)
    ensures StableSort(First(p), s) == Keep(p, s) + Keep(Not(p), s)
  {
    if s != [] {
      var a, b := Keep(p, s[1..]), Keep(Not(p), s[1..]);
      SortByFlag(p, s[1..]);
      FlagParts(p, s[1..]);
      InsertPartitioned(p, s[0], a, b);
      KeepHead(p, s);
      HeadPlaced(p(s[0]), s[0], a, b);
    }
  }

  lemma FlagParts(p: Cand -> bool, s: seq<Cand>)
    ensures forall i | 0 <= i < |Keep(p, s)| :: p(Keep(p, s)[i])
    ensures Keep(Not(p), s) != [] ==> !p(Keep(Not(p), s)[0])
  {
    KeepAll(p, s);
    KeepAll(Not(p), s);
  }

  lemma KeepHead(p: Cand -> bool, s: seq<Cand>)
    requires s != []
    ensures Keep(p, s) == (if p(s[0]) then [s[0]] else []) + Keep(p, s[1..])
    ensures Keep(Not(p), s) == (if p(s[0]) then [] else [s[0]]) + Keep(Not(p), s[1..])
  {
  }

  lemma HeadPlaced(first: bool, x: Cand, a: seq<Cand>, b: seq<Cand>)
    ensures (if first then [x] + a + b else a + [x] + b)
         == ((if first then [x] else []) + a) + ((if first then [] else [x]) + b)
  {
  }

  /** The order, partitioned by what the compatibility map says. */
  function Demoted(order: seq<Cand>, xs: seq<Expanded>): seq<Cand> {
    var fits := Fits(CompatOf(xs));
    Keep(fits, order) + Keep(Not(fits), order)
  }

  /** Compatible candidates first, each half in the strategy's order; nothing dropped. */
  method Demote(order: seq<Cand>, xs: seq<Expanded>) returns (out: seq<Cand>)
    ensures out == Demoted(order, xs)
    ensures multiset(out) == multiset(order)
  {
    var compat: map<string, bool> := map[];
    for i := 0 to |xs|
      invariant compat == CompatOf(xs[..i])
    {
      assert xs[..i + 1][..i] == xs[..i];
      compat := compat[StableKey(CandOf(xs[i])) := xs[i].compatible];
    }
    assert xs[..|xs|] == xs;
    out := StableSort(First(Fits(compat)), order);
    SortByFlag(Fits(compat), order);
    KeepSplits(Fits(compat), order);
  }

  lemma {:induction false} CompatOfCredentialless(xs: seq<Expanded>, k: string)
    ensures k in CompatOf(xs) <==> exists i :: 0 <= i < |xs| && StableKey(CandOf(xs[i])) == k
  {
    if xs != [] {
      var p := xs[..|xs| - 1];
      CompatOfCredentialless(p, k);
      if i :| 0 <= i < |p| && StableKey(CandOf(p[i])) == k { assert xs[i] == p[i]; }
      if i :| 0 <= i < |xs| && StableKey(CandOf(xs[i])) == k { assert i < |p| ==> p[i] == xs[i]; }
    }
  }

  ghost predicate NulFree(order: seq<Cand>, xs: seq<Expanded>) {
    && (forall c | c in order :: '\0' !in c.provider && '\0' !in c.model)
    && (forall e | e in xs :: '\0' !in e.provider && '\0' !in e.model)
  }

  /** A candidate the map knows carries no credential: the map's keys are those of the expanded candidates. */
  lemma KnownIsBare(order: seq<Cand>, xs: seq<Expanded>, c: Cand)
    requires NulFree(order, xs) && c in order && StableKey(c) in CompatOf(xs)
    ensures c.credential == ""
  {
    CompatOfCredentialless(xs, StableKey(c));
    var i :| 0 <= i < |xs| && StableKey(CandOf(xs[i])) == StableKey(c);
    assert xs[i] in xs;
    KeyDeterminesCredential(CandOf(xs[i]), c);
  }

  /** Fill-first writes a credential into its candidates before demotion looks them up, so none of those is found:
      whatever their compatibility, demotion leaves them in place. Provider and model names hold no NUL. */
  lemma FilledCandidatesNeverDemoted(order: seq<Cand>, xs: seq<Expanded>)
    requires NulFree(order, xs) && forall c | c in order :: c.credential != ""
    ensures Demoted(order, xs) == order
  {
    var fits := Fits(CompatOf(xs));
    forall c | c in order ensures !fits(c) {
      if StableKey(c) in CompatOf(xs) { KnownIsBare(order, xs, c); }
    }
    KeepNone(fits, order);
  }

  /** Whether the candidate is compatible, whatever credential was written into it. */
  function Suits(xs: seq<Expanded>): Cand -> bool { (c: Cand) => Fits(CompatOf(xs))(c.(credential := "")) }

  ghost predicate Pairwise<T>(r: (T, T) -> bool, s: seq<T>) {
    forall i, j :: 0 <= i < j < |s| ==> r(s[i], s[j])
  }

  /** No incompatible candidate stands before a compatible one. */
  ghost predicate SuitableFirst(xs: seq<Expanded>, order: seq<Cand>) {
    Pairwise((c: Cand, d: Cand) => Suits(xs)(d) ==> Suits(xs)(c), order)
  }

  /** Among the candidates the map does not call compatible, no incompatible one stands before a compatible one. */
  ghost predicate UnfitSuitableFirst(xs: seq<Expanded>, order: seq<Cand>) {
    forall i, j | 0 <= i < j < |order| && !Fits(CompatOf(xs))(order[i]) && !Fits(CompatOf(xs))(order[j]) ::
      Suits(xs)(order[j]) ==> Suits(xs)(order[i])
  }

  ghost predicate PairwiseAmong<T>(p: T -> bool, r: (T, T) -> bool, s: seq<T>) {
    forall i, j | 0 <= i < j < |s| && p(s[i]) && p(s[j]) :: r(s[i], s[j])
  }

  lemma {:induction false} PairwiseKeep<T>(p: T -> bool, r: (T, T) -> bool, s: seq<T>)
    ensures Pairwise(r, Keep(p, s)) <==> PairwiseAmong(p, r, s)
  {
    if s != [] {
      PairwiseKeep(p, r, s[1..]);
      AmongHead(p, r, s);
      PairwiseConcat(r, if p(s[0]) then [s[0]] else [], Keep(p, s[1..]));
    }
  }

  lemma AmongHead<T>(p: T -> bool, r: (T, T) -> bool, s: seq<T>)
    requires s != []
    ensures PairwiseAmong(p, r, s)
       <==> PairwiseAmong(p, r, s[1..]) && (p(s[0]) ==> forall y | y in Keep(p, s[1..]) :: r(s[0], y))
  {
    var t := s[1..];
    if PairwiseAmong(p, r, s) {
      forall i, j | 0 <= i < j < |t| && p(t[i]) && p(t[j]) ensures r(t[i], t[j]) {
        assert t[i] == s[i + 1] && t[j] == s[j + 1];
      }
      forall y | p(s[0]) && y in Keep(p, t) ensures r(s[0], y) {
        KeepMembers(p, t, y);
        var j :| 0 <= j < |t| && p(t[j]) && t[j] == y;
        assert s[j + 1] == y;
      }
    }
    if PairwiseAmong(p, r, t) && (p(s[0]) ==> forall y | y in Keep(p, t) :: r(s[0], y)) {
      forall i, j | 0 <= i < j < |s| && p(s[i]) && p(s[j]) ensures r(s[i], s[j]) {
        KeepMembers(p, t, t[j - 1]);
        assert s[j] == t[j - 1];
        if i > 0 { assert s[i] == t[i - 1]; }
      }
    }
  }

  lemma {:induction false} KeepMembers<T>(p: T -> bool, s: seq<T>, x: T)
    ensures x in Keep(p, s) <==> exists j :: 0 <= j < |s| && p(s[j]) && s[j] == x
  {
    if s != [] {
      KeepMembers(p, s[1..], x);
      if j :| 0 <= j < |s| && p(s[j]) && s[j] == x {
        if j > 0 { assert s[1..][j - 1] == x; }
      }
      if j :| 0 <= j < |s[1..]| && p(s[1..][j]) && s[1..][j] == x { assert s[j + 1] == x; }
    }
  }

  lemma PairwiseConcat<T>(r: (T, T) -> bool, a: seq<T>, b: seq<T>)
    ensures Pairwise(r, a + b) <==> Pairwise(r, a) && Pairwise(r, b) && forall x, y | x in a && y in b :: r(x, y)
  {
    var s := a + b;
    if Pairwise(r, s) {
      assert forall i | 0 <= i < |a| :: s[i] == a[i];
      assert forall i | 0 <= i < |b| :: s[|a| + i] == b[i];
    }
  }

  /** Exactly when demotion does what it is for. Only a candidate it does not find can be compatible among those moved
      back, and the order suffers if any incompatible one, found or not, stands before it. */
  lemma DemotedSuitsFirstIff(order: seq<Cand>, xs: seq<Expanded>)
    requires NulFree(order, xs)
    ensures SuitableFirst(xs, Demoted(order, xs)) <==> UnfitSuitableFirst(xs, order)
  {
    var fits := Fits(CompatOf(xs));
    var r := (c: Cand, d: Cand) => Suits(xs)(d) ==> Suits(xs)(c);
    var a, b := Keep(fits, order), Keep(Not(fits), order);
    forall c | c in a ensures Suits(xs)(c) {
      KeepMembers(fits, order, c);
      KnownIsBare(order, xs, c);
    }
    PairwiseConcat(r, a, b);
    PairwiseKeep(Not(fits), r, order);
    assert PairwiseAmong(Not(fits), r, order) <==> UnfitSuitableFirst(xs, order);
  }

  lemma {:induction false} KeepNone<T>(p: T -> bool, s: seq<T>)
    requires forall x | x in s :: !p(x)
    ensures Keep(p, s) == [] && Keep(Not(p), s) == s
  {
    if s != [] { KeepNone(p, s[1..]); }
  }

  lemma {:induction false} SplitAtNul(a: string, b: string, s: string, t: string)
    requires '\0' !in a && '\0' !in b && a + "\0" + s == b + "\0" + t
    ensures a == b && s == t
  {
    var x, y := a + "\0" + s, b + "\0" + t;
    assert x[0] == if a == "" then '\0' else a[0];
    assert y[0] == if b == "" then '\0' else b[0];
    if a != "" && b != "" {
      assert x[1..] == a[1..] + "\0" + s && y[1..] == b[1..] + "\0" + t;
      SplitAtNul(a[1..], b[1..], s, t);
      assert a == [a[0]] + a[1..] && b == [b[0]] + b[1..];
    } else {
      assert a == "" && b == "";
      assert x[1..] == s && y[1..] == t;
    }
  }

  lemma KeyDeterminesCredential(c: Cand, d: Cand)
    requires '\0' !in c.provider && '\0' !in c.model && '\0' !in d.provider && '\0' !in d.model
    requires StableKey(c) == StableKey(d)
    ensures c == d
  {
    assert StableKey(c) == c.provider + "\0" + (c.model + "\0" + c.credential);
    assert StableKey(d) == d.provider + "\0" + (d.model + "\0" + d.credential);
    SplitAtNul(c.provider, d.provider, c.model + "\0" + c.credential, d.model + "\0" + d.credential);
    SplitAtNul(c.model, d.model, c.credential, d.credential);
  }
}
