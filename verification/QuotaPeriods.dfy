/** Quota windows over whole runs of deliveries, resets and terminal marks included (internal/quota/recorder.go,
    filter.go): which deliveries a window counts at any time, and when the filter blocks. */
module QuotaPeriods {
  import opened Quota

  // --- periods ---

  predicate Within(starts: seq<nat>, n: nat) { forall p | 0 <= p < |starts| :: starts[p] < n }

  /** Whether the last delivery opens a period. */
  predicate OpensNext(spec: Spec, run: seq<Delivery>, cred: string, before: seq<nat>)
    requires run != [] && Within(before, |run| - 1)
  {
    var n := |run| - 1;
    For(run, n, cred) && (before == [] || (spec.duration > 0 && run[n].now >= run[before[|before| - 1]].now + spec.duration))
  }

  /** The deliveries that open a period of the window. */
  function Openers(spec: Spec, run: seq<Delivery>, cred: string): (starts: seq<nat>)
    ensures Within(starts, |run|)
  {
    if run == [] then []
    else
      var n := |run| - 1;
      var before := Openers(spec, run[..n], cred);
      if OpensNext(spec, run, cred, before) then before + [n] else before
  }

  /** Delivery i falls behind the p-th opener and before the next. */
  predicate InPeriod(starts: seq<nat>, p: nat, i: nat)
    requires p < |starts|
  {
    starts[p] <= i && (p + 1 < |starts| ==> i < starts[p + 1])
  }

  /** The openers, in order, count for the credential, and nothing that counts comes before the first. */
  ghost predicate Open(run: seq<Delivery>, cred: string, starts: seq<nat>) {
    && Within(starts, |run|) && (forall p | 0 <= p < |starts| :: For(run, starts[p], cred))
    && (forall p :: 0 <= p < |starts| - 1 ==> starts[p] < starts[p + 1])
    && (forall i | 0 <= i < |run| && For(run, i, cred) :: starts != [] && starts[0] <= i)
  }

  /** What counts in a period comes before its end. */
  ghost predicate Lasting(spec: Spec, run: seq<Delivery>, cred: string, starts: seq<nat>)
    requires Within(starts, |run|)
  {
    forall p, i | 0 <= p < |starts| && 0 <= i < |run| && InPeriod(starts, p, i) && For(run, i, cred) ::
      run[i].now < run[starts[p]].now + spec.duration
  }

  /** The periods of a window: the first delivery that counts for the credential opens the first; each lasts for the
      declared duration, from then on; and the first that counts after its end opens the next. Without a duration there is
      only one. */
  ghost predicate ArePeriods(spec: Spec, run: seq<Delivery>, cred: string, starts: seq<nat>) {
    && Open(run, cred, starts)
    && if spec.duration <= 0 then |starts| <= 1
       else
         && (forall p :: 0 <= p < |starts| - 1 ==> run[starts[p + 1]].now >= run[starts[p]].now + spec.duration)
         && Lasting(spec, run, cred, starts)
  }

  lemma ForPrefix(run: seq<Delivery>, n: nat, i: nat, cred: string)
    requires i < n <= |run|
    ensures For(run[..n], i, cred) == For(run, i, cred)
  {
    CountsPrefix(run, n, i);
  }

  lemma {:induction false} OpenersArePeriods(spec: Spec, run: seq<Delivery>, cred: string)
    ensures ArePeriods(spec, run, cred, Openers(spec, run, cred))
  {
    if run != [] {
      var n := |run| - 1;
      var p := run[..n];
      var before := Openers(spec, p, cred);
      OpenersArePeriods(spec, p, cred);
      forall i | 0 <= i < n ensures For(p, i, cred) == For(run, i, cred) && p[i] == run[i] { ForPrefix(run, n, i, cred); }
      if Openers(spec, run, cred) == before {
        SamePeriod(spec, run, cred, before);
      } else {
        NextPeriod(spec, run, cred, before);
      }
    }
  }

  lemma SamePeriod(spec: Spec, run: seq<Delivery>, cred: string, starts: seq<nat>)
    requires run != [] && ArePeriods(spec, run[..|run| - 1], cred, starts)
    requires forall i | 0 <= i < |run| - 1 :: For(run[..|run| - 1], i, cred) == For(run, i, cred) && run[..|run| - 1][i] == run[i]
    requires var n := |run| - 1; For(run, n, cred) ==>
      starts != [] && (spec.duration > 0 ==> run[n].now < run[starts[|starts| - 1]].now + spec.duration)
    ensures ArePeriods(spec, run, cred, starts)
  {
    var n := |run| - 1;
    if spec.duration > 0 {
      forall p, i | 0 <= p < |starts| && 0 <= i < |run| && InPeriod(starts, p, i) && For(run, i, cred)
        ensures run[i].now < run[starts[p]].now + spec.duration
      {
        if i < n { assert For(run[..n], i, cred); } else { assert p == |starts| - 1; }
      }
    }
  }

  lemma NextOpen(run: seq<Delivery>, cred: string, before: seq<nat>)
    requires run != [] && Open(run[..|run| - 1], cred, before) && For(run, |run| - 1, cred)
    requires forall i | 0 <= i < |run| - 1 :: For(run[..|run| - 1], i, cred) == For(run, i, cred)
    ensures Open(run, cred, before + [|run| - 1])
  {
    var n := |run| - 1;
    var starts := before + [n];
    forall p | 0 <= p < |starts| ensures starts[p] < |run| && For(run, starts[p], cred) {
      if p < |before| { assert starts[p] == before[p] && For(run[..n], before[p], cred); }
    }
    forall i | 0 <= i < |run| && For(run, i, cred) ensures starts[0] <= i {
      if i < n {
        assert For(run[..n], i, cred) && before != [] && starts[0] == before[0];
      } else {
        assert starts[0] <= n;
      }
    }
  }

  lemma NextLasting(spec: Spec, run: seq<Delivery>, cred: string, before: seq<nat>)
    requires run != [] && spec.duration > 0
    requires Open(run[..|run| - 1], cred, before) && Lasting(spec, run[..|run| - 1], cred, before)
    requires forall i | 0 <= i < |run| - 1 :: For(run[..|run| - 1], i, cred) == For(run, i, cred) && run[..|run| - 1][i] == run[i]
    ensures Within(before + [|run| - 1], |run|) && Lasting(spec, run, cred, before + [|run| - 1])
  {
    var n := |run| - 1;
    var starts := before + [n];
    forall p, i | 0 <= p < |starts| && 0 <= i < |run| && InPeriod(starts, p, i) && For(run, i, cred)
      ensures run[i].now < run[starts[p]].now + spec.duration
    {
      if i < n {
        assert For(run[..n], i, cred) && p < |before| && InPeriod(before, p, i);
        assert starts[p] == before[p] && run[..n][before[p]] == run[before[p]];
      } else {
        assert p == |before|;
      }
    }
  }

  lemma NextPeriod(spec: Spec, run: seq<Delivery>, cred: string, before: seq<nat>)
    requires run != [] && ArePeriods(spec, run[..|run| - 1], cred, before) && For(run, |run| - 1, cred)
    requires forall i | 0 <= i < |run| - 1 :: For(run[..|run| - 1], i, cred) == For(run, i, cred) && run[..|run| - 1][i] == run[i]
    requires before == [] || (spec.duration > 0 && run[|run| - 1].now >= run[before[|before| - 1]].now + spec.duration)
    ensures ArePeriods(spec, run, cred, before + [|run| - 1])
  {
    var n := |run| - 1;
    var starts := before + [n];
    NextOpen(run, cred, before);
    if spec.duration > 0 {
      NextLasting(spec, run, cred, before);
      forall p | 0 <= p < |starts| - 1 ensures run[starts[p + 1]].now >= run[starts[p]].now + spec.duration {
        if p + 1 < |before| { assert run[..n][before[p + 1]] == run[before[p + 1]] && run[..n][before[p]] == run[before[p]]; }
      }
    }
  }

  /** What the period of the last opener has counted. */
  function PeriodSum(cfg: Config, run: seq<Delivery>, cred: string, kind: string, starts: seq<nat>): real
    requires Within(starts, |run|)
  {
    if starts == [] then 0.0
    else Sum(cfg.specs, kind, cred, run) - Sum(cfg.specs, kind, cred, run[..starts[|starts| - 1]])
  }

  function PeriodEnd(spec: Spec, run: seq<Delivery>, starts: seq<nat>): Option<Time>
    requires Within(starts, |run|)
  {
    if starts == [] || spec.duration <= 0 then None else Some(run[starts[|starts| - 1]].now + spec.duration)
  }

  lemma PeriodGoesOn(cfg: Config, spec: Spec, run: seq<Delivery>, cred: string, kind: string, starts: seq<nat>)
    requires run != [] && starts != [] && Within(starts, |run| - 1)
    ensures var n := |run| - 1;
      && PeriodSum(cfg, run, cred, kind, starts)
         == PeriodSum(cfg, run[..n], cred, kind, starts)
            + (if For(run, n, cred) then Amount(cfg.specs, kind, run[n].u) else 0.0)
      && PeriodEnd(spec, run, starts) == PeriodEnd(spec, run[..n], starts)
  {
    var k := starts[|starts| - 1];
    assert run[..|run| - 1][..k] == run[..k];
  }

  lemma PeriodStarts(cfg: Config, run: seq<Delivery>, cred: string, kind: string, before: seq<nat>)
    requires run != [] && Within(before, |run| - 1) && For(run, |run| - 1, cred)
    ensures PeriodSum(cfg, run, cred, kind, before + [|run| - 1]) == Amount(cfg.specs, kind, run[|run| - 1].u)
  {
  }

  lemma FoldRollsOver(w: Window, spec: Spec, u: Usage, now: Time, limit: real, x: real, end: Time)
    requires spec.duration > 0 && now >= end && Holds(w, limit, x, Some(end))
    ensures Holds(Fold(w, spec, u, now), limit, Value(spec.unit, u), Some(now + spec.duration))
  {
  }

  lemma RollsOverHere(specs: seq<Spec>, ws: seq<Window>, u: Usage, now: Time, x: real, limit: real, end: Time)
    requires specs != [] && now >= end && specs[0].duration > 0
    requires var w := Get(ws, specs[0].kind); w.Some? && Holds(w.value, limit, x, Some(end))
    ensures var kind := specs[0].kind;
      var w := Get(ApplyAll(specs, ws, u, now), kind);
      w.Some? && Holds(w.value, limit, Amount(specs, kind, u), Some(now + specs[0].duration))
  {
    var spec := specs[0];
    var w := Fold(Get(ws, spec.kind).value, spec, u, now);
    FoldRollsOver(Get(ws, spec.kind).value, spec, u, now, limit, x, end);
    GetPut(ws, w, spec.kind);
    ApplyAllHolds(specs[1..], Put(ws, w), u, now, spec.kind, Value(spec.unit, u), limit, Some(now + spec.duration));
  }

  lemma AppliedElsewhere(ws: seq<Window>, spec: Spec, u: Usage, now: Time, kind: string)
    requires spec.kind != kind
    ensures Get(ApplySpec(ws, spec, u, now), kind) == Get(ws, kind)
  {
    var w := Get(ws, spec.kind);
    GetPut(ws, Fold(if w.Some? then w.value else Created(spec, now), spec, u, now), kind);
  }

  /** Past its reset a window starts over with the delivery. */
  lemma {:induction false} ApplyAllRollsOver(specs: seq<Spec>, ws: seq<Window>, u: Usage, now: Time, kind: string, x: real,
                                             limit: real, end: Time)
    requires Declared(specs, kind) && now >= end && SpecOf(specs, kind).duration > 0
    requires Get(ws, kind).Some? && Holds(Get(ws, kind).value, limit, x, Some(end))
    ensures var w := Get(ApplyAll(specs, ws, u, now), kind);
      w.Some? && Holds(w.value, limit, Amount(specs, kind, u), Some(now + SpecOf(specs, kind).duration))
    decreases |specs|
  {
    var spec := specs[0];
    if spec.kind == kind {
      RollsOverHere(specs, ws, u, now, x, limit, end);
    } else {
      AppliedElsewhere(ws, spec, u, now, kind);
      ApplyAllRollsOver(specs[1..], ApplySpec(ws, spec, u, now), u, now, kind, x, limit, end);
    }
  }

  /** The window after a run: absent until a delivery counts, then holding the clamped sum of its current period, which
      ends at its reset. */
  ghost predicate CountsPeriod(cfg: Config, run: seq<Delivery>, cred: string, kind: string, starts: seq<nat>)
    requires Declared(cfg.specs, kind) && Within(starts, |run|)
  {
    var s, spec := Deliver(cfg, EMPTY, run), SpecOf(cfg.specs, kind);
    var w := Get(WindowsOf(s, cred), kind);
    if starts == [] then cred !in s.windows
    else
      && w.Some? && w.value.kind == kind
      && Holds(w.value, spec.limit, PeriodSum(cfg, run, cred, kind, starts), PeriodEnd(spec, run, starts))
  }

  lemma PeriodUncounted(cfg: Config, run: seq<Delivery>, cred: string, kind: string, starts: seq<nat>)
    requires Declared(cfg.specs, kind) && run != [] && AppliedIffCounted(cfg, run) && !For(run, |run| - 1, cred)
    requires Within(starts, |run| - 1) && CountsPeriod(cfg, run[..|run| - 1], cred, kind, starts)
    ensures CountsPeriod(cfg, run, cred, kind, starts)
  {
    var s, s' := Deliver(cfg, EMPTY, run[..|run| - 1]), Deliver(cfg, EMPTY, run);
    assert WindowsOf(s', cred) == WindowsOf(s, cred) && (cred in s'.windows <==> cred in s.windows);
    if starts != [] { PeriodGoesOn(cfg, SpecOf(cfg.specs, kind), run, cred, kind, starts); }
  }

  lemma PeriodContinued(cfg: Config, run: seq<Delivery>, cred: string, kind: string, starts: seq<nat>)
    requires Declared(cfg.specs, kind) && run != [] && AppliedIffCounted(cfg, run) && For(run, |run| - 1, cred)
    requires starts != [] && Within(starts, |run| - 1) && CountsPeriod(cfg, run[..|run| - 1], cred, kind, starts)
    requires Before(run[|run| - 1].now, PeriodEnd(SpecOf(cfg.specs, kind), run, starts))
    ensures CountsPeriod(cfg, run, cred, kind, starts)
  {
    var n := |run| - 1;
    var p, spec := run[..n], SpecOf(cfg.specs, kind);
    CountedApplies(cfg, run, cred);
    PeriodGoesOn(cfg, spec, run, cred, kind, starts);
    ApplyAllHolds(cfg.specs, WindowsOf(Deliver(cfg, EMPTY, p), cred), run[n].u, run[n].now, kind,
                  PeriodSum(cfg, p, cred, kind, starts), spec.limit, PeriodEnd(spec, p, starts));
    KindOf(WindowsOf(Deliver(cfg, EMPTY, run), cred), kind);
  }

  lemma KindOf(ws: seq<Window>, kind: string)
    ensures Get(ws, kind).Some? ==> Get(ws, kind).value.kind == kind
  {
  }

  lemma CountedApplies(cfg: Config, run: seq<Delivery>, cred: string)
    requires run != [] && AppliedIffCounted(cfg, run) && For(run, |run| - 1, cred)
    ensures var n := |run| - 1;
      WindowsOf(Deliver(cfg, EMPTY, run), cred)
      == ApplyAll(cfg.specs, WindowsOf(Deliver(cfg, EMPTY, run[..n]), cred), run[n].u, run[n].now)
  {
  }

  lemma PeriodFirst(cfg: Config, run: seq<Delivery>, cred: string, kind: string)
    requires Declared(cfg.specs, kind) && run != [] && AppliedIffCounted(cfg, run) && For(run, |run| - 1, cred)
    requires CountsPeriod(cfg, run[..|run| - 1], cred, kind, [])
    ensures CountsPeriod(cfg, run, cred, kind, [|run| - 1])
  {
    var n := |run| - 1;
    CountedApplies(cfg, run, cred);
    PeriodStarts(cfg, run, cred, kind, []);
    assert [] + [n] == [n];
    ApplyAllCreates(cfg.specs, WindowsOf(Deliver(cfg, EMPTY, run[..n]), cred), run[n].u, run[n].now, kind);
    KindOf(WindowsOf(Deliver(cfg, EMPTY, run), cred), kind);
  }

  lemma PeriodNext(cfg: Config, run: seq<Delivery>, cred: string, kind: string, before: seq<nat>)
    requires Declared(cfg.specs, kind) && run != [] && AppliedIffCounted(cfg, run) && For(run, |run| - 1, cred)
    requires before != [] && Within(before, |run| - 1) && CountsPeriod(cfg, run[..|run| - 1], cred, kind, before)
    requires var end := PeriodEnd(SpecOf(cfg.specs, kind), run, before); end.Some? && run[|run| - 1].now >= end.value
    ensures CountsPeriod(cfg, run, cred, kind, before + [|run| - 1])
  {
    var n := |run| - 1;
    var p, spec := run[..n], SpecOf(cfg.specs, kind);
    CountedApplies(cfg, run, cred);
    PeriodStarts(cfg, run, cred, kind, before);
    ApplyAllRollsOver(cfg.specs, WindowsOf(Deliver(cfg, EMPTY, p), cred), run[n].u, run[n].now, kind,
                      PeriodSum(cfg, p, cred, kind, before), spec.limit, PeriodEnd(spec, p, before).value);
    KindOf(WindowsOf(Deliver(cfg, EMPTY, run), cred), kind);
  }

  lemma PeriodStep(cfg: Config, run: seq<Delivery>, cred: string, kind: string, before: seq<nat>)
    requires Declared(cfg.specs, kind) && run != [] && Within(before, |run| - 1)
    requires CountsPeriod(cfg, run[..|run| - 1], cred, kind, before)
    ensures if OpensNext(SpecOf(cfg.specs, kind), run, cred, before) then CountsPeriod(cfg, run, cred, kind, before + [|run| - 1])
            else CountsPeriod(cfg, run, cred, kind, before)
  {
    var n := |run| - 1;
    AppliesIffCounts(cfg, run);
    if !For(run, n, cred) {
      PeriodUncounted(cfg, run, cred, kind, before);
    } else if before == [] {
      PeriodFirst(cfg, run, cred, kind);
      assert before + [n] == [n];
    } else if OpensNext(SpecOf(cfg.specs, kind), run, cred, before) {
      PeriodNext(cfg, run, cred, kind, before);
    } else {
      PeriodContinued(cfg, run, cred, kind, before);
    }
  }

  lemma {:induction false} OpenersCount(cfg: Config, run: seq<Delivery>, cred: string, kind: string)
    requires Declared(cfg.specs, kind)
    ensures CountsPeriod(cfg, run, cred, kind, Openers(SpecOf(cfg.specs, kind), run, cred))
  {
    if run != [] {
      OpenersCount(cfg, run[..|run| - 1], cred, kind);
      PeriodStep(cfg, run, cred, kind, Openers(SpecOf(cfg.specs, kind), run[..|run| - 1], cred));
    }
  }

  /** Whatever the times of the deliveries: a locally counted window holds the clamped sum of the deliveries that count in
      its current period. */
  lemma WindowCountsItsPeriod(cfg: Config, run: seq<Delivery>, cred: string, kind: string)
    requires Declared(cfg.specs, kind)
    ensures var starts := Openers(SpecOf(cfg.specs, kind), run, cred);
      ArePeriods(SpecOf(cfg.specs, kind), run, cred, starts) && CountsPeriod(cfg, run, cred, kind, starts)
  {
    OpenersArePeriods(SpecOf(cfg.specs, kind), run, cred);
    OpenersCount(cfg, run, cred, kind);
  }

  // --- the filter, in every run ---

  /** What happens to the recorder: a usage is delivered, or a credential marked terminal. */
  datatype Step = Used(d: Delivery) | Spoiled(credential: string, code: string)

  function After(cfg: Config, steps: seq<Step>): State {
    if steps == [] then EMPTY
    else
      var s := After(cfg, steps[..|steps| - 1]);
      match steps[|steps| - 1]
      case Used(d) => Recorded(cfg, s, d.u, d.now)
      case Spoiled(cred, code) => Marked(s, cred, code)
  }

  function Deliveries(steps: seq<Step>): seq<Delivery> {
    if steps == [] then []
    else
      var last := steps[|steps| - 1];
      Deliveries(steps[..|steps| - 1]) + if last.Used? then [last.d] else []
  }

  ghost predicate EverSpoiled(steps: seq<Step>, cred: string) {
    exists i :: 0 <= i < |steps| && steps[i].Spoiled? && steps[i].credential == cred && steps[i].code != ""
  }

  /** Terminal marks and deliveries do not touch each other. */
  lemma {:induction false} MarksApart(cfg: Config, steps: seq<Step>)
    ensures var s, d := After(cfg, steps), Deliver(cfg, EMPTY, Deliveries(steps));
      s.windows == d.windows && s.applied == d.applied
  {
    if steps != [] {
      var p, last := steps[..|steps| - 1], steps[|steps| - 1];
      MarksApart(cfg, p);
      if last.Used? {
        var run := Deliveries(steps);
        assert run[..|run| - 1] == Deliveries(p) && run[|run| - 1] == last.d;
        SameUsage(cfg, After(cfg, p), Deliver(cfg, EMPTY, Deliveries(p)), last.d);
      } else {
        assert Deliveries(steps) == Deliveries(p);
      }
    }
  }

  lemma SameUsage(cfg: Config, s: State, d: State, x: Delivery)
    requires s.windows == d.windows && s.applied == d.applied
    ensures Recorded(cfg, s, x.u, x.now).windows == Recorded(cfg, d, x.u, x.now).windows
    ensures Recorded(cfg, s, x.u, x.now).applied == Recorded(cfg, d, x.u, x.now).applied
  {
  }

  /** A mark stays. */
  lemma {:induction false} MarksStay(cfg: Config, steps: seq<Step>, cred: string)
    requires cred != ""
    ensures var marks := After(cfg, steps).terminal;
      (cred in marks && marks[cred] != "") <==> EverSpoiled(steps, cred)
  {
    if steps != [] {
      var p := steps[..|steps| - 1];
      MarksStay(cfg, p, cred);
      EverSpoiledStep(steps, cred);
    }
  }

  lemma EverSpoiledStep(steps: seq<Step>, cred: string)
    requires steps != []
    ensures var last := steps[|steps| - 1];
      EverSpoiled(steps, cred)
      <==> EverSpoiled(steps[..|steps| - 1], cred) || (last.Spoiled? && last.credential == cred && last.code != "")
  {
    var p := steps[..|steps| - 1];
    assert forall i | 0 <= i < |p| :: p[i] == steps[i];
  }

  /** Some declared window with a ceiling has, in its current period, used up all but its cutoff's share of it. */
  ghost predicate PeriodShareUsed(cfg: Config, run: seq<Delivery>, cred: string, kind: string) {
    && Declared(cfg.specs, kind)
    && var spec := SpecOf(cfg.specs, kind);
       var starts := Openers(spec, run, cred);
       starts != [] && spec.limit > 0.0
       && ShareReached(spec.limit, if kind in cfg.cutoffs then cfg.cutoffs[kind] else cfg.cutoff,
                       PeriodSum(cfg, run, cred, kind, starts))
  }

  lemma {:induction false} SumGrows(specs: seq<Spec>, kind: string, cred: string, run: seq<Delivery>, k: nat)
    requires k <= |run|
    ensures Sum(specs, kind, cred, run[..k]) <= Sum(specs, kind, cred, run)
  {
    if k < |run| {
      SumGrows(specs, kind, cred, run[..|run| - 1], k);
      assert run[..|run| - 1][..k] == run[..k];
    } else {
      assert run[..k] == run;
    }
  }

  lemma PeriodSpentIff(cfg: Config, run: seq<Delivery>, cred: string, kind: string)
    requires Declared(cfg.specs, kind)
    ensures var w := Get(WindowsOf(Deliver(cfg, EMPTY, run), cred), kind);
      (w.Some? && Spent(cfg, w.value)) <==> PeriodShareUsed(cfg, run, cred, kind)
  {
    var starts := Openers(SpecOf(cfg.specs, kind), run, cred);
    WindowCountsItsPeriod(cfg, run, cred, kind);
    var w := Get(WindowsOf(Deliver(cfg, EMPTY, run), cred), kind);
    if starts != [] {
      SumGrows(cfg.specs, kind, cred, run, starts[|starts| - 1]);
      SpentIffShare(cfg, w.value, PeriodSum(cfg, run, cred, kind, starts));
    }
  }

  lemma BlockedIffSpent(cfg: Config, s: State, ws: seq<Window>, cred: string)
    requires cred != "" && ws == WindowsOf(s, cred)
    ensures Blocked(cfg, s, cred)
       <==> (cred in s.terminal && s.terminal[cred] != "") || exists i :: 0 <= i < |ws| && Spent(cfg, ws[i])
  {
  }

  lemma SomeWindowSpentIff(cfg: Config, run: seq<Delivery>, cred: string)
    ensures var ws := WindowsOf(Deliver(cfg, EMPTY, run), cred);
      (exists i :: 0 <= i < |ws| && Spent(cfg, ws[i])) <==> exists kind :: PeriodShareUsed(cfg, run, cred, kind)
  {
    var ws := WindowsOf(Deliver(cfg, EMPTY, run), cred);
    DeliverTidy(cfg, run, cred);
    if i :| 0 <= i < |ws| && Spent(cfg, ws[i]) {
      assert Get(ws, ws[i].kind) == Some(ws[i]);
      PeriodSpentIff(cfg, run, cred, ws[i].kind);
    }
    if kind :| PeriodShareUsed(cfg, run, cred, kind) {
      PeriodSpentIff(cfg, run, cred, kind);
      assert Spent(cfg, ws[Find(ws, kind)]);
    }
  }

  /** In every run of deliveries and terminal marks, at whatever times: the filter blocks a credential exactly when it was
      marked terminal at some time, or one of its windows has used up its share in the current period. */
  lemma BlocksIff(cfg: Config, steps: seq<Step>, cred: string)
    requires cred != ""
    ensures Blocked(cfg, After(cfg, steps), cred)
       <==> EverSpoiled(steps, cred) || exists kind :: PeriodShareUsed(cfg, Deliveries(steps), cred, kind)
  {
    MarksApart(cfg, steps);
    MarksStay(cfg, steps, cred);
    BlockedIffSpent(cfg, After(cfg, steps), WindowsOf(Deliver(cfg, EMPTY, Deliveries(steps)), cred), cred);
    SomeWindowSpentIff(cfg, Deliveries(steps), cred);
  }
}
