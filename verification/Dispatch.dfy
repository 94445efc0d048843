/** Execution of a plan (internal/dispatcher/dispatcher.go, structural.go): the failover loop over a leaf's attempts,
    and its recursion through fusion panels, judge and pipeline stages. Everything the dispatcher asks of others is
    answered by a `World`, question t of the run at a time. */
module Dispatch {
  import opened BreakerCircuit
  import opened RouteOrder
  import opened RouteGroups

  /** Requests and response bodies are opaque here. */
  type Wire = string

  datatype Failure = Failure(scope: Scope, retryable: bool, retryAfter: int)

  datatype Skip = SkipBreaker | SkipQuota | SkipCredential

  datatype Resolution = Skipped(reason: Skip) | Ready(credential: string)

  datatype Reply = Answered(body: Wire) | Refused(failure: Failure)

  datatype World = World(
    resolve: (nat, Cand) -> Resolution,
    cancelled: nat -> bool,
    build: (nat, Cand) -> Option<Failure>,
    call: (nat, Cand, Wire) -> Reply,
    waited: nat -> bool,
    feed: (Wire, Wire) -> Wire,
    judge: (Wire, seq<PanelResult>) -> Wire)

  /** Calls carry their reply; `Reported` is one breaker record. */
  datatype Event =
    | Called(c: Cand, req: Wire, reply: Reply)
    | BuildFailed(c: Cand, failure: Failure)
    | Reported(c: Cand, success: bool)

  datatype Error =
    | NoAttempts(sawBreaker: bool, sawQuota: bool, candidates: nat)
    | MaxRounds(rounds: int)
    | Exhausted(attempts: nat, last: Option<Failure>)
    | Upstream(failure: Failure)
    | ContextDone
    | TooManyPanels(panels: nat)
    | AllPanelsFailed(panels: nat)

  datatype Outcome = Won(cand: Cand, body: Wire, attempts: nat) | Lost(error: Error)

  datatype PanelResult = PanelResult(number: nat, ok: bool, cand: Cand, body: Wire)

  datatype Result = Result(outcome: Outcome, events: seq<Event>, t: nat)

  const NOBODY := Cand("", "", "")

  // --- one leaf ---

  datatype Tally = Tally(attempts: nat, last: Option<Failure>, sawBreaker: bool, sawQuota: bool)

  const START := Tally(0, None, false, false)

  function Filled(c: Cand, credential: string): Cand {
    if c.credential == "" then c.(credential := credential) else c
  }

  function NoWinner(tally: Tally, hit: bool, rounds: int, candidates: nat): Outcome {
    if tally.attempts == 0 then Lost(NoAttempts(tally.sawBreaker, tally.sawQuota, candidates))
    else if hit then Lost(MaxRounds(rounds))
    else Lost(Exhausted(tally.attempts, tally.last))
  }

  function Rounds(plan: Plan): int { if plan.maxRounds <= 0 then |plan.attempts| else plan.maxRounds }

  function After(events: seq<Event>, r: Result): Result { r.(events := events + r.events) }

  lemma AfterAfter(a: seq<Event>, b: seq<Event>, r: Result)
    ensures After(a, After(b, r)) == After(a + b, r)
  {
    assert a + (b + r.events) == (a + b) + r.events;
  }

  /** What one candidate leads to: the end of the run, or the next candidate. */
  datatype Move = Stop(result: Result) | Go(events: seq<Event>, t: nat, tally: Tally)

  function Try(w: World, t: nat, c: Cand, req: Wire, stream: bool, tally: Tally): Move {
    match w.resolve(t, c)
    case Skipped(reason) =>
      Go([], t + 1, tally.(sawBreaker := tally.sawBreaker || reason.SkipBreaker?,
                           sawQuota := tally.sawQuota || reason.SkipQuota?))
    case Ready(credential) =>
      var cc := Filled(c, credential);
      if w.cancelled(t + 1) then Stop(Result(Lost(ContextDone), [], t + 2))
      else
        match w.build(t + 2, cc)
        case Some(f) => Go([BuildFailed(cc, f), Reported(cc, false)], t + 3, tally.(last := Some(f)))
        case None =>
          var reply := w.call(t + 3, cc, req);
          var n := tally.attempts + 1;
          match reply
          case Answered(body) =>
            Stop(Result(Won(cc, body, n), [Called(cc, req, reply)] + (if stream then [] else [Reported(cc, true)]), t + 4))
          case Refused(f) =>
            var events := [Called(cc, req, reply), Reported(cc, false)];
            if f.scope.Request? then Stop(Result(Lost(Upstream(f)), events, t + 4))
            else if w.cancelled(t + 4) || (f.retryAfter > 0 && !w.waited(t + 5)) then
              Stop(Result(Lost(ContextDone), events, t + 6))
            else Go(events, t + 6, tally.(attempts := n, last := Some(f)))
  }

  /** The loop from attempts[i] on. */
  function LeafFrom(w: World, t: nat, plan: Plan, req: Wire, stream: bool, i: nat, tally: Tally): Result
    requires i <= |plan.attempts|
    decreases |plan.attempts| - i
  {
    if i == |plan.attempts| || tally.attempts >= Rounds(plan) then
      Result(NoWinner(tally, i < |plan.attempts|, Rounds(plan), |plan.attempts|), [], t)
    else
      match Try(w, t, plan.attempts[i], req, stream, tally)
      case Stop(r) => r
      case Go(events, t1, tally1) => After(events, LeafFrom(w, t1, plan, req, stream, i + 1, tally1))
  }

  // --- a whole plan ---

  const MAX_FANOUT := 8

  function Run(w: World, t: nat, plan: Plan, req: Wire, stream: bool): Result
    decreases plan, 1, 0
  {
    if plan.panels != [] then
      if |plan.panels| > MAX_FANOUT then Result(Lost(TooManyPanels(|plan.panels|)), [], t)
      else
        var (outputs, events, t1) := PanelsFrom(w, t, plan, req, 0);
        if Successes(outputs) == 0 then Result(Lost(AllPanelsFailed(|plan.panels|)), events, t1)
        else if plan.judge.None? then Result(FirstSuccess(outputs, |outputs|), events, t1)
        else
          var r := Run(w, t1, plan.judge.value, w.judge(req, outputs), stream);
          After(events, r.(outcome := AddAttempts(r.outcome, Successes(outputs))))
    else if plan.chain != [] then ChainFrom(w, t, plan, req, stream, 0, 0)
    else LeafFrom(w, t, plan, req, stream, 0, START)
  }

  function PanelsFrom(w: World, t: nat, plan: Plan, req: Wire, k: nat): (seq<PanelResult>, seq<Event>, nat)
    requires k <= |plan.panels|
    decreases plan, 0, |plan.panels| - k
  {
    if k == |plan.panels| then ([], [], t)
    else
      var r := Run(w, t, plan.panels[k].plan, req, false);
      var (rest, events, t1) := PanelsFrom(w, r.t, plan, req, k + 1);
      ([PanelOutput(plan.panels[k].number, r.outcome)] + rest, r.events + events, t1)
  }

  function PanelOutput(number: nat, outcome: Outcome): PanelResult {
    match outcome
    case Won(c, body, _) => PanelResult(number, true, c, body)
    case Lost(_) => PanelResult(number, false, NOBODY, "")
  }

  function Successes(outputs: seq<PanelResult>): nat {
    if outputs == [] then 0 else (if outputs[0].ok then 1 else 0) + Successes(outputs[1..])
  }

  function FirstSuccess(outputs: seq<PanelResult>, attempts: nat): Outcome
    requires Successes(outputs) > 0
  {
    if outputs[0].ok then Won(outputs[0].cand, outputs[0].body, attempts) else FirstSuccess(outputs[1..], attempts)
  }

  function AddAttempts(o: Outcome, n: nat): Outcome { if o.Won? then o.(attempts := o.attempts + n) else o }

  /** Stage k on; `total` counts the attempts of the stages before it. */
  function ChainFrom(w: World, t: nat, plan: Plan, cur: Wire, stream: bool, k: nat, total: nat): Result
    requires k < |plan.chain|
    decreases plan, 0, |plan.chain| - k
  {
    if k == |plan.chain| - 1 then
      var r := Run(w, t, plan.chain[k], cur, stream);
      r.(outcome := AddAttempts(r.outcome, total))
    else
      var r := Run(w, t, plan.chain[k], cur, false);
      if r.outcome.Lost? then r
      else
        After(r.events, ChainFrom(w, r.t, plan, w.feed(cur, r.outcome.body), stream, k + 1, total + r.outcome.attempts))
  }

  // --- the loops ---

  method RunLeaf(w: World, t: nat, plan: Plan, req: Wire, stream: bool) returns (r: Result)
    ensures r == LeafFrom(w, t, plan, req, stream, 0, START)
  {
    var rounds := Rounds(plan);
    var tally, hit, now := START, false, t;
    var events: seq<Event> := [];
    ghost var all := LeafFrom(w, t, plan, req, stream, 0, START);
    for i := 0 to |plan.attempts|
      invariant !hit
      invariant all == After(events, LeafFrom(w, now, plan, req, stream, i, tally))
    {
      if tally.attempts >= rounds {
        hit := true;
        break;
      }
      var move := TryOne(w, now, plan.attempts[i], req, stream, tally);
      if move.Stop? {
        return After(events, move.result);
      }
      AfterAfter(events, move.events, LeafFrom(w, move.t, plan, req, stream, i + 1, move.tally));
      events, now, tally := events + move.events, move.t, move.tally;
    }
    return Result(NoWinner(tally, hit, rounds, |plan.attempts|), events, now);
  }

  /** The loop body. */
  method TryOne(w: World, now: nat, c: Cand, req: Wire, stream: bool, tally: Tally) returns (m: Move)
    ensures m == Try(w, now, c, req, stream, tally)
  {
    var resolution := w.resolve(now, c);
    if resolution.Skipped? {
      return Go([], now + 1, tally.(sawBreaker := tally.sawBreaker || resolution.reason.SkipBreaker?,
                                    sawQuota := tally.sawQuota || resolution.reason.SkipQuota?));
    }
    var cc := Filled(c, resolution.credential);
    if w.cancelled(now + 1) {
      return Stop(Result(Lost(ContextDone), [], now + 2));
    }
    var built := w.build(now + 2, cc);
    if built.Some? {
      return Go([BuildFailed(cc, built.value), Reported(cc, false)], now + 3, tally.(last := built));
    }
    var attempts := tally.attempts + 1;
    var reply := w.call(now + 3, cc, req);
    var events := [Called(cc, req, reply)];
    if reply.Answered? {
      if !stream {
        events := events + [Reported(cc, true)];
      }
      return Stop(Result(Won(cc, reply.body, attempts), events, now + 4));
    }
    events := events + [Reported(cc, false)];
    if reply.failure.scope.Request? {
      return Stop(Result(Lost(Upstream(reply.failure)), events, now + 4));
    }
    if w.cancelled(now + 4) || (reply.failure.retryAfter > 0 && !w.waited(now + 5)) {
      return Stop(Result(Lost(ContextDone), events, now + 6));
    }
    return Go(events, now + 6, tally.(attempts := attempts, last := Some(reply.failure)));
  }

  method RunPanels(w: World, t: nat, plan: Plan, req: Wire) returns (outputs: seq<PanelResult>, events: seq<Event>, now: nat)
    ensures (outputs, events, now) == PanelsFrom(w, t, plan, req, 0)
    decreases plan, 0, 0
  {
    outputs, events, now := [], [], t;
    ghost var all := PanelsFrom(w, t, plan, req, 0);
    for k := 0 to |plan.panels|
      invariant all.0 == outputs + PanelsFrom(w, now, plan, req, k).0
      invariant all.1 == events + PanelsFrom(w, now, plan, req, k).1
      invariant all.2 == PanelsFrom(w, now, plan, req, k).2
    {
      var r := Execute(w, now, plan.panels[k].plan, req, false);
      ghost var rest := PanelsFrom(w, r.t, plan, req, k + 1);
      var output := PanelOutput(plan.panels[k].number, r.outcome);
      assert outputs + ([output] + rest.0) == (outputs + [output]) + rest.0;
      assert events + (r.events + rest.1) == (events + r.events) + rest.1;
      outputs, events, now := outputs + [output], events + r.events, r.t;
    }
    assert PanelsFrom(w, now, plan, req, |plan.panels|) == ([], [], now);
    assert outputs + [] == outputs && events + [] == events;
  }

  method RunPipeline(w: World, t: nat, plan: Plan, req: Wire, stream: bool) returns (r: Result)
    requires plan.chain != []
    ensures r == ChainFrom(w, t, plan, req, stream, 0, 0)
    decreases plan, 0, 0
  {
    var cur, now := req, t;
    var total: nat := 0;
    var events: seq<Event> := [];
    ghost var all := ChainFrom(w, t, plan, req, stream, 0, 0);
    for i := 0 to |plan.chain| - 1
      invariant all == After(events, ChainFrom(w, now, plan, cur, stream, i, total))
    {
      var stage := Execute(w, now, plan.chain[i], cur, false);
      if stage.outcome.Lost? {
        return stage.(events := events + stage.events);
      }
      total := total + stage.outcome.attempts;
      AfterAfter(events, stage.events, ChainFrom(w, stage.t, plan, w.feed(cur, stage.outcome.body), stream, i + 1, total));
      cur := w.feed(cur, stage.outcome.body);
      events, now := events + stage.events, stage.t;
    }
    var lastStage := Execute(w, now, plan.chain[|plan.chain| - 1], cur, stream);
    return After(events, lastStage.(outcome := AddAttempts(lastStage.outcome, total)));
  }

  method Execute(w: World, t: nat, plan: Plan, req: Wire, stream: bool) returns (r: Result)
    ensures r == Run(w, t, plan, req, stream)
    decreases plan, 1, 0
  {
    if plan.panels != [] {
      if |plan.panels| > MAX_FANOUT {
        return Result(Lost(TooManyPanels(|plan.panels|)), [], t);
      }
      var outputs, events, now := RunPanels(w, t, plan, req);
      if Successes(outputs) == 0 {
        return Result(Lost(AllPanelsFailed(|plan.panels|)), events, now);
      }
      if plan.judge.None? {
        return Result(FirstSuccess(outputs, |outputs|), events, now);
      }
      var judged := Execute(w, now, plan.judge.value, w.judge(req, outputs), stream);
      return After(events, judged.(outcome := AddAttempts(judged.outcome, Successes(outputs))));
    }
    if plan.chain != [] {
      r := RunPipeline(w, t, plan, req, stream);
    } else {
      r := RunLeaf(w, t, plan, req, stream);
    }
  }

  // --- counting ---

  function Calls(events: seq<Event>): nat {
    if events == [] then 0 else (if events[0].Called? then 1 else 0) + Calls(events[1..])
  }

  function FailedBuilds(events: seq<Event>): nat {
    if events == [] then 0 else (if events[0].BuildFailed? then 1 else 0) + FailedBuilds(events[1..])
  }

  function Reports(events: seq<Event>): nat {
    if events == [] then 0 else (if events[0].Reported? then 1 else 0) + Reports(events[1..])
  }

  lemma {:induction false} CountsAdd(a: seq<Event>, b: seq<Event>)
    ensures Calls(a + b) == Calls(a) + Calls(b)
    ensures FailedBuilds(a + b) == FailedBuilds(a) + FailedBuilds(b)
    ensures Reports(a + b) == Reports(a) + Reports(b)
  {
    if a == [] {
      assert a + b == b;
    } else {
      assert (a + b)[1..] == a[1..] + b;
      CountsAdd(a[1..], b);
    }
  }

  /** Upstream calls a plan may make: its leaves' caps, summed through panels, judge and stages. */
  function Budget(plan: Plan): int
    decreases plan, 1, 0
  {
    if plan.panels != [] then
      if |plan.panels| > MAX_FANOUT then 0
      else PanelsBudget(plan, 0) + if plan.judge.Some? then Budget(plan.judge.value) else 0
    else if plan.chain != [] then ChainBudget(plan, 0)
    else Min(Rounds(plan), |plan.attempts|)
  }

  function PanelsBudget(plan: Plan, k: nat): int
    requires k <= |plan.panels|
    decreases plan, 0, |plan.panels| - k
  {
    if k == |plan.panels| then 0 else Budget(plan.panels[k].plan) + PanelsBudget(plan, k + 1)
  }

  function ChainBudget(plan: Plan, k: nat): int
    requires k <= |plan.chain|
    decreases plan, 0, |plan.chain| - k
  {
    if k == |plan.chain| then 0 else Budget(plan.chain[k]) + ChainBudget(plan, k + 1)
  }

  /** A call or failed build without a report: only a streamed winner. */
  predicate Balanced(r: Result, stream: bool) {
    var owed := Calls(r.events) + FailedBuilds(r.events) - Reports(r.events);
    0 <= owed <= 1 && (!stream || r.outcome.Lost? ==> owed == 0)
  }

  /** One attempt's two events in front of the rest. */
  lemma PairCounts(a: Event, b: Event, rest: seq<Event>)
    requires !a.Reported? && b.Reported?
    ensures Calls([a, b] + rest) == (if a.Called? then 1 else 0) + Calls(rest)
    ensures FailedBuilds([a, b] + rest) == (if a.BuildFailed? then 1 else 0) + FailedBuilds(rest)
    ensures Reports([a, b] + rest) == 1 + Reports(rest)
  {
    assert ([a, b] + rest)[1..] == [b] + rest && ([b] + rest)[1..] == rest;
  }

  lemma OneAttemptCounts(c: Cand, req: Wire, reply: Reply, success: bool)
    ensures Calls([Called(c, req, reply)]) == 1 && FailedBuilds([Called(c, req, reply)]) == 0
    ensures Reports([Called(c, req, reply)]) == 0
    ensures var events := [Called(c, req, reply)] + [Reported(c, success)];
      events == [Called(c, req, reply), Reported(c, success)]
      && Calls(events) == 1 && FailedBuilds(events) == 0 && Reports(events) == 1
  {
    var events := [Called(c, req, reply), Reported(c, success)];
    PairCounts(events[0], events[1], []);
    assert events + [] == events;
    assert [Called(c, req, reply)][1..] == [];
  }

  lemma TryCounts(w: World, t: nat, c: Cand, req: Wire, stream: bool, tally: Tally)
    ensures var m := Try(w, t, c, req, stream, tally);
      var events := if m.Stop? then m.result.events else m.events;
      && Calls(events) <= 1
      && (m.Go? ==> m.tally.attempts == tally.attempts + Calls(events) && Reports(events) == Calls(events) + FailedBuilds(events))
      && (m.Stop? ==> Balanced(m.result, stream) && (m.result.outcome.Won? ==>
                        Calls(events) == 1 && m.result.outcome.attempts == tally.attempts + 1))
  {
    match w.resolve(t, c)
    case Skipped(_) =>
    case Ready(credential) =>
      var cc := Filled(c, credential);
      var built, reply := w.build(t + 2, cc), w.call(t + 3, cc, req);
      OneAttemptCounts(cc, req, reply, reply.Answered?);
      if built.Some? {
        PairCounts(BuildFailed(cc, built.value), Reported(cc, false), []);
        assert [BuildFailed(cc, built.value), Reported(cc, false)] + [] == [BuildFailed(cc, built.value), Reported(cc, false)];
      }
      assert [Called(cc, req, reply)] + [] == [Called(cc, req, reply)];
  }

  predicate LeafCounted(r: Result, room: int, stream: bool, before: nat) {
    && Calls(r.events) <= room && Balanced(r, stream)
    && (r.outcome.Won? ==> r.outcome.attempts == before + Calls(r.events))
  }

  lemma {:induction false} LeafCounts(w: World, t: nat, plan: Plan, req: Wire, stream: bool, i: nat, tally: Tally)
    requires i <= |plan.attempts| && tally.attempts <= Rounds(plan)
    ensures LeafCounted(LeafFrom(w, t, plan, req, stream, i, tally),
                        Min(Rounds(plan) - tally.attempts, |plan.attempts| - i), stream, tally.attempts)
    decreases |plan.attempts| - i
  {
    if i < |plan.attempts| && tally.attempts < Rounds(plan) {
      var m := Try(w, t, plan.attempts[i], req, stream, tally);
      TryCounts(w, t, plan.attempts[i], req, stream, tally);
      if m.Go? {
        LeafCounts(w, m.t, plan, req, stream, i + 1, m.tally);
        CountsAdd(m.events, LeafFrom(w, m.t, plan, req, stream, i + 1, m.tally).events);
      }
    }
  }

  /** Every run keeps to its budget, and reports every call and failed build to the breaker exactly once, unless the
      run is streaming and won: then at most one call goes unreported. */
  lemma {:induction false} RunCounts(w: World, t: nat, plan: Plan, req: Wire, stream: bool)
    ensures var r := Run(w, t, plan, req, stream); Calls(r.events) <= Budget(plan) && Balanced(r, stream)
    decreases plan, 1, 0
  {
    if plan.panels != [] {
      if |plan.panels| <= MAX_FANOUT {
        PanelsCount(w, t, plan, req, 0);
        var (outputs, events, t1) := PanelsFrom(w, t, plan, req, 0);
        if Successes(outputs) > 0 && plan.judge.Some? {
          RunCounts(w, t1, plan.judge.value, w.judge(req, outputs), stream);
          CountsAdd(events, Run(w, t1, plan.judge.value, w.judge(req, outputs), stream).events);
        } else if plan.judge.Some? {
          BudgetNonNegative(plan.judge.value);
        }
      }
    } else if plan.chain != [] {
      ChainCounts(w, t, plan, req, stream, 0, 0);
    } else {
      LeafCounts(w, t, plan, req, stream, 0, START);
    }
  }

  lemma {:induction false} BudgetNonNegative(plan: Plan)
    ensures Budget(plan) >= 0
    decreases plan, 1, 0
  {
    if plan.panels != [] {
      PanelsBudgetNonNegative(plan, 0);
      if plan.judge.Some? { BudgetNonNegative(plan.judge.value); }
    } else if plan.chain != [] {
      ChainBudgetNonNegative(plan, 0);
    }
  }

  lemma {:induction false} PanelsBudgetNonNegative(plan: Plan, k: nat)
    requires k <= |plan.panels|
    ensures PanelsBudget(plan, k) >= 0
    decreases plan, 0, |plan.panels| - k
  {
    if k < |plan.panels| {
      BudgetNonNegative(plan.panels[k].plan);
      PanelsBudgetNonNegative(plan, k + 1);
    }
  }

  lemma {:induction false} ChainBudgetNonNegative(plan: Plan, k: nat)
    requires k <= |plan.chain|
    ensures ChainBudget(plan, k) >= 0
    decreases plan, 0, |plan.chain| - k
  {
    if k < |plan.chain| {
      BudgetNonNegative(plan.chain[k]);
      ChainBudgetNonNegative(plan, k + 1);
    }
  }

  lemma {:induction false} PanelsCount(w: World, t: nat, plan: Plan, req: Wire, k: nat)
    requires k <= |plan.panels|
    ensures var (_, events, _) := PanelsFrom(w, t, plan, req, k);
      Calls(events) <= PanelsBudget(plan, k) && Calls(events) + FailedBuilds(events) == Reports(events)
    decreases plan, 0, |plan.panels| - k
  {
    if k < |plan.panels| {
      var r := Run(w, t, plan.panels[k].plan, req, false);
      RunCounts(w, t, plan.panels[k].plan, req, false);
      PanelsCount(w, r.t, plan, req, k + 1);
      CountsAdd(r.events, PanelsFrom(w, r.t, plan, req, k + 1).1);
    }
  }

  lemma {:induction false} ChainCounts(w: World, t: nat, plan: Plan, cur: Wire, stream: bool, k: nat, total: nat)
    requires k < |plan.chain|
    ensures var r := ChainFrom(w, t, plan, cur, stream, k, total);
      Calls(r.events) <= ChainBudget(plan, k) && Balanced(r, stream)
    decreases plan, 0, |plan.chain| - k
  {
    var last := k == |plan.chain| - 1;
    var r := Run(w, t, plan.chain[k], cur, last && stream);
    RunCounts(w, t, plan.chain[k], cur, last && stream);
    if last {
      assert ChainBudget(plan, k) == Budget(plan.chain[k]) + ChainBudget(plan, k + 1);
    } else if r.outcome.Won? {
      ChainCounts(w, r.t, plan, w.feed(cur, r.outcome.body), stream, k + 1, total + r.outcome.attempts);
      CountsAdd(r.events,
        ChainFrom(w, r.t, plan, w.feed(cur, r.outcome.body), stream, k + 1, total + r.outcome.attempts).events);
    } else {
      ChainBudgetNonNegative(plan, k + 1);
    }
  }

  // --- what a leaf run looks like ---

  function CallsOf(events: seq<Event>): seq<Event> {
    if events == [] then [] else (if events[0].Called? then [events[0]] else []) + CallsOf(events[1..])
  }

  lemma {:induction false} CallsOfConcat(a: seq<Event>, b: seq<Event>)
    ensures CallsOf(a + b) == CallsOf(a) + CallsOf(b)
  {
    if a == [] {
      assert a + b == b;
    } else {
      assert (a + b)[0] == a[0] && (a + b)[1..] == a[1..] + b;
      CallsOfConcat(a[1..], b);
      var head := if a[0].Called? then [a[0]] else [];
      assert head + (CallsOf(a[1..]) + CallsOf(b)) == (head + CallsOf(a[1..])) + CallsOf(b);
    }
  }

  predicate IsFill(c: Cand, planned: Cand) {
    c.provider == planned.provider && c.model == planned.model
    && (planned.credential != "" ==> c.credential == planned.credential)
  }

  /** The calls go through the planned candidates in order, each at most once. */
  predicate Follows(calls: seq<Event>, cs: seq<Cand>)
    requires forall e | e in calls :: e.Called?
  {
    || calls == []
    || (cs != [] && ((IsFill(calls[0].c, cs[0]) && Follows(calls[1..], cs[1..])) || Follows(calls, cs[1..])))
  }

  /** Only the last call can have answered, or been refused on the request's account; and then the outcome says so. */
  predicate EndsRight(calls: seq<Event>, outcome: Outcome)
    requires forall e | e in calls :: e.Called?
  {
    && (forall k | 0 <= k < |calls| :: calls[k].reply.Answered? ==>
          k == |calls| - 1 && outcome.Won? && outcome.cand == calls[k].c && outcome.body == calls[k].reply.body)
    && (forall k | 0 <= k < |calls| :: calls[k].reply.Refused? && calls[k].reply.failure.scope.Request? ==>
          k == |calls| - 1 && outcome == Lost(Upstream(calls[k].reply.failure)))
    && (outcome.Won? ==> calls != [] && calls[|calls| - 1].reply.Answered?)
    && (outcome.Lost? && outcome.error.Upstream? ==>
          calls != [] && calls[|calls| - 1].reply == Refused(outcome.error.failure) && outcome.error.failure.scope.Request?)
  }

  /** What one candidate adds: no call, or one; only a stop can follow an answer or a request-scoped refusal. */
  lemma TryCalls(w: World, t: nat, c: Cand, req: Wire, stream: bool, tally: Tally)
    ensures var m := Try(w, t, c, req, stream, tally);
      var calls := CallsOf(if m.Stop? then m.result.events else m.events);
      && |calls| <= 1 && (forall e | e in calls :: e.Called? && IsFill(e.c, c))
      && (m.Go? ==> forall e | e in calls :: e.reply.Refused? && !e.reply.failure.scope.Request?)
      && (m.Stop? ==> EndsRight(calls, m.result.outcome))
  {
    match w.resolve(t, c)
    case Skipped(_) =>
    case Ready(credential) =>
      var cc := Filled(c, credential);
      var reply := w.call(t + 3, cc, req);
      CallsOfPair(Called(cc, req, reply), Reported(cc, reply.Answered?));
      OneCallEndsRight(cc, req, reply);
      match w.build(t + 2, cc)
      case Some(f) => CallsOfPair(BuildFailed(cc, f), Reported(cc, false));
      case None =>
  }

  /** How a run may end on one call. */
  lemma OneCallEndsRight(c: Cand, req: Wire, reply: Reply)
    ensures reply.Answered? ==> forall n :: EndsRight([Called(c, req, reply)], Won(c, reply.body, n))
    ensures reply.Refused? && reply.failure.scope.Request? ==> EndsRight([Called(c, req, reply)], Lost(Upstream(reply.failure)))
    ensures reply.Refused? && !reply.failure.scope.Request? ==> EndsRight([Called(c, req, reply)], Lost(ContextDone))
  {
  }

  /** Going on after a call leaves a last error behind. */
  lemma TryLeavesError(w: World, t: nat, c: Cand, req: Wire, stream: bool, tally: Tally)
    requires tally.attempts > 0 ==> tally.last.Some?
    ensures var m := Try(w, t, c, req, stream, tally); m.Go? && m.tally.attempts > 0 ==> m.tally.last.Some?
  {
  }

  lemma CallsOfPair(a: Event, b: Event)
    requires !b.Called?
    ensures CallsOf([a, b]) == CallsOf([a] + [b]) == CallsOf([a] + []) == if a.Called? then [a] else []
  {
    assert [a, b][1..] == [b] && [a] + [b] == [a, b] && [a] + [] == [a] && [a][1..] == [] && [b][1..] == [];
  }

  lemma PrependCall(calls: seq<Event>, rest: seq<Event>, outcome: Outcome)
    requires |calls| <= 1 && (forall e | e in calls + rest :: e.Called?) && EndsRight(rest, outcome)
    requires forall e | e in calls :: e.reply.Refused? && !e.reply.failure.scope.Request?
    ensures EndsRight(calls + rest, outcome)
  {
    if calls != [] {
      assert calls[0] in calls;
      assert forall k | 0 < k < |calls + rest| :: (calls + rest)[k] == rest[k - 1];
    } else {
      assert calls + rest == rest;
    }
  }

  lemma PrependFollows(calls: seq<Event>, rest: seq<Event>, c: Cand, cs: seq<Cand>)
    requires |calls| <= 1 && (forall e | e in calls :: e.Called? && IsFill(e.c, c))
    requires (forall e | e in rest :: e.Called?) && Follows(rest, cs)
    ensures (forall e | e in calls + rest :: e.Called?) && Follows(calls + rest, [c] + cs)
  {
    assert ([c] + cs)[1..] == cs;
    if calls == [] {
      assert calls + rest == rest;
    } else {
      assert calls[0] in calls;
      assert (calls + rest)[1..] == rest;
    }
  }

  /** The calls follow the candidates, end as the outcome says, and an exhausted run has a last error. */
  ghost predicate IsFailover(r: Result, cs: seq<Cand>) {
    var calls := CallsOf(r.events);
    && (forall e | e in calls :: e.Called?)
    && Follows(calls, cs)
    && EndsRight(calls, r.outcome)
    && (r.outcome.Lost? && r.outcome.error.Exhausted? ==> r.outcome.error.last.Some?)
  }

  lemma FailoverAfter(c: Cand, events: seq<Event>, rest: Result, cs: seq<Cand>)
    requires IsFailover(rest, cs)
    requires var calls := CallsOf(events);
      && |calls| <= 1 && (forall e | e in calls :: e.Called? && IsFill(e.c, c))
      && forall e | e in calls :: e.reply.Refused? && !e.reply.failure.scope.Request?
    ensures IsFailover(After(events, rest), [c] + cs)
  {
    var calls := CallsOf(events);
    CallsOfConcat(events, rest.events);
    PrependFollows(calls, CallsOf(rest.events), c, cs);
    PrependCall(calls, CallsOf(rest.events), rest.outcome);
  }

  lemma FailoverStops(c: Cand, r: Result, cs: seq<Cand>)
    requires var calls := CallsOf(r.events);
      |calls| <= 1 && (forall e | e in calls :: e.Called? && IsFill(e.c, c)) && EndsRight(calls, r.outcome)
    requires !(r.outcome.Lost? && r.outcome.error.Exhausted?)
    ensures IsFailover(r, [c] + cs)
  {
    PrependFollows(CallsOf(r.events), [], c, cs);
    assert CallsOf(r.events) + [] == CallsOf(r.events);
  }

  /** In every leaf the calls run through the attempts in order; a winner or a request-scoped refusal is the last call,
      and nothing else ends it that way; when the attempts are exhausted there is a last error to report. */
  lemma {:induction false} LeafIsFailover(w: World, t: nat, plan: Plan, req: Wire, stream: bool, i: nat, tally: Tally)
    requires i <= |plan.attempts| && (tally.attempts > 0 ==> tally.last.Some?)
    ensures IsFailover(LeafFrom(w, t, plan, req, stream, i, tally), plan.attempts[i..])
    decreases |plan.attempts| - i
  {
    if i < |plan.attempts| && tally.attempts < Rounds(plan) {
      var c, cs := plan.attempts[i], plan.attempts[i + 1..];
      var m := Try(w, t, c, req, stream, tally);
      TryCalls(w, t, c, req, stream, tally);
      assert plan.attempts[i..] == [c] + cs;
      if m.Stop? {
        FailoverStops(c, m.result, cs);
      } else {
        TryLeavesError(w, t, c, req, stream, tally);
        LeafIsFailover(w, m.t, plan, req, stream, i + 1, m.tally);
        FailoverAfter(c, m.events, LeafFrom(w, m.t, plan, req, stream, i + 1, m.tally), cs);
      }
    }
  }

  // --- the attempts a response claims ---

  predicate NoPanels(plan: Plan) {
    plan.panels == [] && forall k | 0 <= k < |plan.chain| :: NoPanels(plan.chain[k])
  }

  /** Without fusion a response's attempt count is exactly the number of upstream calls behind it. */
  lemma {:induction false} AttemptsAreCalls(w: World, t: nat, plan: Plan, req: Wire, stream: bool)
    requires NoPanels(plan)
    ensures var r := Run(w, t, plan, req, stream); r.outcome.Won? ==> r.outcome.attempts == Calls(r.events)
    decreases plan, 1, 0
  {
    if plan.chain != [] {
      ChainAttempts(w, t, plan, req, stream, 0, 0);
    } else {
      LeafCounts(w, t, plan, req, stream, 0, START);
    }
  }

  lemma {:induction false} ChainAttempts(w: World, t: nat, plan: Plan, cur: Wire, stream: bool, k: nat, total: nat)
    requires NoPanels(plan) && k < |plan.chain|
    ensures var r := ChainFrom(w, t, plan, cur, stream, k, total);
      r.outcome.Won? ==> r.outcome.attempts == total + Calls(r.events)
    decreases plan, 0, |plan.chain| - k
  {
    var last := k == |plan.chain| - 1;
    var r := Run(w, t, plan.chain[k], cur, last && stream);
    AttemptsAreCalls(w, t, plan.chain[k], cur, last && stream);
    if !last && r.outcome.Won? {
      var next := ChainFrom(w, r.t, plan, w.feed(cur, r.outcome.body), stream, k + 1, total + r.outcome.attempts);
      ChainAttempts(w, r.t, plan, w.feed(cur, r.outcome.body), stream, k + 1, total + r.outcome.attempts);
      CountsAdd(r.events, next.events);
    }
  }

  /** What a winning fusion claims: its panels when nobody judges, else its successful panels and the judge's attempts. The
      claim is the number of upstream calls exactly when the panels made as many calls as they are counted for. */
  lemma FusionAttemptsIff(w: World, t: nat, plan: Plan, req: Wire, stream: bool)
    requires 0 < |plan.panels| <= MAX_FANOUT && (plan.judge.Some? ==> NoPanels(plan.judge.value))
    requires Run(w, t, plan, req, stream).outcome.Won?
    ensures var r := Run(w, t, plan, req, stream);
      var (outputs, events, _) := PanelsFrom(w, t, plan, req, 0);
      && (r.outcome.attempts == Calls(r.events) <==>
            Calls(events) == if plan.judge.Some? then Successes(outputs) else |plan.panels|)
      && (plan.judge.None? ==> r.outcome.attempts == |plan.panels|)
      && (plan.judge.Some? ==> r.outcome.attempts == Successes(outputs) + Calls(r.events) - Calls(events))
  {
    var (outputs, events, t1) := PanelsFrom(w, t, plan, req, 0);
    PanelsLength(w, t, plan, req, 0);
    if plan.judge.Some? {
      var judged := Run(w, t1, plan.judge.value, w.judge(req, outputs), stream);
      AttemptsAreCalls(w, t1, plan.judge.value, w.judge(req, outputs), stream);
      CountsAdd(events, judged.events);
    } else {
      FirstSuccessClaims(outputs, |outputs|);
    }
  }

  lemma {:induction false} PanelsLength(w: World, t: nat, plan: Plan, req: Wire, k: nat)
    requires k <= |plan.panels|
    ensures |PanelsFrom(w, t, plan, req, k).0| == |plan.panels| - k
    decreases |plan.panels| - k
  {
    if k < |plan.panels| { PanelsLength(w, Run(w, t, plan.panels[k].plan, req, false).t, plan, req, k + 1); }
  }

  lemma {:induction false} FirstSuccessClaims(outputs: seq<PanelResult>, n: nat)
    requires Successes(outputs) > 0
    ensures FirstSuccess(outputs, n).Won? && FirstSuccess(outputs, n).attempts == n
  {
    if !outputs[0].ok { FirstSuccessClaims(outputs[1..], n); }
  }

  /** A fusion of single-step panels, as a resolve builds it: each panel, and the judge if there is one, a leaf with at
      least one attempt. */
  predicate LeafFusion(plan: Plan) {
    && 0 < |plan.panels| <= MAX_FANOUT
    && (forall k | 0 <= k < |plan.panels| :: LeafPlan(plan.panels[k].plan))
    && (plan.judge.Some? ==> LeafPlan(plan.judge.value))
  }

  predicate LeafPlan(plan: Plan) { plan.attempts != [] && plan == Leaf(plan.attempts) }

  /** Whatever happens, a response claims as many attempts as upstream calls were made for it. */
  ghost predicate ClaimsCalls(plan: Plan) {
    forall w: World, req: Wire | Run(w, 0, plan, req, false).outcome.Won? ::
      Run(w, 0, plan, req, false).outcome.attempts == Calls(Run(w, 0, plan, req, false).events)
  }

  /** Only question 0 finds a usable credential, and its call is answered. */
  const ONE_ANSWER := World((t: nat, c: Cand) => if t == 0 then Ready("") else Skipped(SkipBreaker), (t: nat) => false,
                            (t: nat, c: Cand) => None, (t: nat, c: Cand, r: Wire) => Answered(""), (t: nat) => true,
                            (r: Wire, s: Wire) => r, (r: Wire, o: seq<PanelResult>) => r)

  /** Every call is answered but the first, which the provider refuses. */
  const ONE_REFUSAL := ONE_ANSWER.(
    resolve := (t: nat, c: Cand) => Ready(""),
    call := (t: nat, c: Cand, r: Wire) => if t == 3 then Refused(Failure(Provider, true, 0)) else Answered(""))

  lemma {:induction false} NobodyAnswers(t: nat, plan: Plan, req: Wire, i: nat, tally: Tally)
    requires t > 0 && i <= |plan.attempts| && tally.attempts == 0
    ensures var r := LeafFrom(ONE_ANSWER, t, plan, req, false, i, tally); r.outcome.Lost? && r.events == [] && r.t > 0
    decreases |plan.attempts| - i
  {
    if i < |plan.attempts| && 0 < Rounds(plan) {
      NobodyAnswers(t + 1, plan, req, i + 1, tally.(sawBreaker := true));
    }
  }

  lemma {:induction false} NoPanelAnswers(t: nat, plan: Plan, req: Wire, k: nat)
    requires LeafFusion(plan) && t > 0 && k <= |plan.panels|
    ensures Calls(PanelsFrom(ONE_ANSWER, t, plan, req, k).1) == 0
    decreases |plan.panels| - k
  {
    if k < |plan.panels| {
      var leaf := plan.panels[k].plan;
      NobodyAnswers(t, leaf, req, 0, START);
      var r := Run(ONE_ANSWER, t, leaf, req, false);
      NoPanelAnswers(r.t, plan, req, k + 1);
      assert r.events + PanelsFrom(ONE_ANSWER, r.t, plan, req, k + 1).1 == PanelsFrom(ONE_ANSWER, r.t, plan, req, k + 1).1;
    }
  }

  /** The call an attempt makes when it is answered at once. */
  lemma AnsweredAtOnce(w: World, t: nat, plan: Plan, req: Wire, i: nat, tally: Tally)
    requires i < |plan.attempts| && tally.attempts < Rounds(plan)
    requires w.resolve(t, plan.attempts[i]).Ready? && !w.cancelled(t + 1)
    requires var c := Filled(plan.attempts[i], w.resolve(t, plan.attempts[i]).credential);
      w.build(t + 2, c) == None && w.call(t + 3, c, req).Answered?
    ensures var r := LeafFrom(w, t, plan, req, false, i, tally);
      r.outcome.Won? && r.outcome.attempts == tally.attempts + 1 && Calls(r.events) == 1 && r.t == t + 4
  {
    var cc := Filled(plan.attempts[i], w.resolve(t, plan.attempts[i]).credential);
    OneAttemptCounts(cc, req, w.call(t + 3, cc, req), true);
  }

  /** One answer among several panels: the panels that called nobody are claimed all the same. */
  lemma SeveralPanelsOverclaim(plan: Plan)
    requires LeafFusion(plan) && plan.judge.None? && |plan.panels| >= 2
    ensures !ClaimsCalls(plan)
  {
    var w := ONE_ANSWER;
    var leaf := plan.panels[0].plan;
    AnsweredAtOnce(w, 0, leaf, "", 0, START);
    var first := Run(w, 0, leaf, "", false);
    NoPanelAnswers(first.t, plan, "", 1);
    var rest := PanelsFrom(w, first.t, plan, "", 1);
    CountsAdd(first.events, rest.1);
    var panels := PanelsFrom(w, 0, plan, "", 0);
    assert panels.0[0].ok && Successes(panels.0) > 0;
    assert Calls(panels.1) == 1;
    FirstSuccessClaims(panels.0, |panels.0|);
    FusionAttemptsIff(w, 0, plan, "", false);
  }

  lemma {:induction false} EveryPanelAnswers(t: nat, plan: Plan, req: Wire, k: nat)
    requires LeafFusion(plan) && t > 0 && k <= |plan.panels|
    ensures var (outputs, events, t1) := PanelsFrom(ONE_REFUSAL, t, plan, req, k);
      Calls(events) == |plan.panels| - k && Successes(outputs) == |plan.panels| - k && t1 > 0
    decreases |plan.panels| - k
  {
    if k < |plan.panels| {
      var leaf := plan.panels[k].plan;
      AnsweredAtOnce(ONE_REFUSAL, t, leaf, req, 0, START);
      var r := Run(ONE_REFUSAL, t, leaf, req, false);
      EveryPanelAnswers(r.t, plan, req, k + 1);
      CountsAdd(r.events, PanelsFrom(ONE_REFUSAL, r.t, plan, req, k + 1).1);
    }
  }

  /** The first call is refused; the panel has a second attempt or has not. */
  lemma FirstRefused(plan: Plan, req: Wire)
    requires LeafPlan(plan)
    ensures var r := Run(ONE_REFUSAL, 0, plan, req, false);
      r.t > 0 && (r.outcome.Won? <==> |plan.attempts| >= 2) && Calls(r.events) == if |plan.attempts| >= 2 then 2 else 1
  {
    var w, c := ONE_REFUSAL, Filled(plan.attempts[0], "");
    var events := [Called(c, req, w.call(3, c, req))] + [Reported(c, false)];
    OneAttemptCounts(c, req, w.call(3, c, req), false);
    var tally := START.(attempts := 1, last := Some(Failure(Provider, true, 0)));
    assert Try(w, 0, plan.attempts[0], req, false, START) == Go(events, 6, tally);
    var rest := LeafFrom(w, 6, plan, req, false, 1, tally);
    if |plan.attempts| >= 2 { AnsweredAtOnce(w, 6, plan, req, 1, tally); }
    CountsAdd(events, rest.events);
  }

  /** One refusal in a fusion that has a second attempt somewhere makes one call more than there are successful panels. */
  lemma RefusalUnclaimed(plan: Plan)
    requires LeafFusion(plan) && (|plan.panels| >= 2 || |plan.panels[0].plan.attempts| >= 2)
    requires plan.judge.None? ==> |plan.panels| == 1
    ensures !ClaimsCalls(plan)
  {
    var w := ONE_REFUSAL;
    FirstRefused(plan.panels[0].plan, "");
    var first := Run(w, 0, plan.panels[0].plan, "", false);
    EveryPanelAnswers(first.t, plan, "", 1);
    var rest := PanelsFrom(w, first.t, plan, "", 1);
    CountsAdd(first.events, rest.1);
    var (outputs, events, t1) := PanelsFrom(w, 0, plan, "", 0);
    assert outputs == [PanelOutput(plan.panels[0].number, first.outcome)] + rest.0;
    assert Successes(outputs) > 0 && Calls(events) == Successes(outputs) + 1;
    PanelsLength(w, 0, plan, "", 0);
    if plan.judge.Some? {
      AnsweredAtOnce(w, t1, plan.judge.value, w.judge("", outputs), 0, START);
    } else {
      FirstSuccessClaims(outputs, |outputs|);
    }
    FusionAttemptsIff(w, 0, plan, "", false);
  }

  /** With one attempt in all, a panel that won made one call. */
  lemma OneAttemptClaims(w: World, plan: Plan, req: Wire)
    requires LeafFusion(plan) && |plan.panels| == 1 && |plan.panels[0].plan.attempts| == 1
    requires Run(w, 0, plan, req, false).outcome.Won?
    ensures Run(w, 0, plan, req, false).outcome.attempts == Calls(Run(w, 0, plan, req, false).events)
  {
    var leaf := plan.panels[0].plan;
    var first := Run(w, 0, leaf, req, false);
    LeafCounts(w, 0, leaf, req, false, 0, START);
    AttemptsAreCalls(w, 0, leaf, req, false);
    var panels := PanelsFrom(w, 0, plan, req, 0);
    assert PanelsFrom(w, first.t, plan, req, 1) == ([], [], first.t);
    assert panels.0 == [PanelOutput(plan.panels[0].number, first.outcome)] && panels.1 == first.events;
    assert panels.0[1..] == [] && Successes(panels.0) == if first.outcome.Won? then 1 else 0;
    WonCalled(w, 0, leaf, req, 0, START);
    assert first == LeafFrom(w, 0, leaf, req, false, 0, START) && Calls(first.events) <= 1;
    FusionAttemptsIff(w, 0, plan, req, false);
  }

  lemma {:induction false} WonCalled(w: World, t: nat, plan: Plan, req: Wire, i: nat, tally: Tally)
    requires i <= |plan.attempts|
    ensures var r := LeafFrom(w, t, plan, req, false, i, tally); r.outcome.Won? ==> Calls(r.events) >= 1
    decreases |plan.attempts| - i
  {
    if i < |plan.attempts| && tally.attempts < Rounds(plan) {
      var m := Try(w, t, plan.attempts[i], req, false, tally);
      TryCounts(w, t, plan.attempts[i], req, false, tally);
      if m.Go? {
        WonCalled(w, m.t, plan, req, i + 1, m.tally);
        CountsAdd(m.events, LeafFrom(w, m.t, plan, req, false, i + 1, m.tally).events);
      }
    }
  }

  /** For the fusions a resolve builds, with or without a judge: the claimed attempts are the upstream calls whatever
      happens if and only if there is one panel with one attempt. */
  lemma FusionClaimsCallsIff(plan: Plan)
    requires LeafFusion(plan)
    ensures ClaimsCalls(plan) <==> |plan.panels| == 1 && |plan.panels[0].plan.attempts| == 1
  {
    if |plan.panels| == 1 && |plan.panels[0].plan.attempts| == 1 {
      forall w: World, req: Wire | Run(w, 0, plan, req, false).outcome.Won?
        ensures Run(w, 0, plan, req, false).outcome.attempts == Calls(Run(w, 0, plan, req, false).events)
      {
        OneAttemptClaims(w, plan, req);
      }
    } else if |plan.panels| >= 2 && plan.judge.None? {
      SeveralPanelsOverclaim(plan);
    } else {
      RefusalUnclaimed(plan);
    }
  }

  /** Fusion without a judge claims one attempt per panel, though a panel whose circuits are open calls nobody. */
  lemma FusionOverstatesAttempts(w: World, a: Cand, b: Cand)
    requires w.resolve(0, a) == Ready("k") && !w.cancelled(1) && w.build(2, Filled(a, "k")) == None
    requires w.call(3, Filled(a, "k"), "").Answered? && w.resolve(4, b) == Skipped(SkipBreaker)
    ensures var plan := Plan("c", Fusion, [a, b], 2, [Panel(1, Leaf([a])), Panel(2, Leaf([b]))], None, []);
      var r := Run(w, 0, plan, "", false);
      r.outcome.Won? && r.outcome.attempts == 2 && Calls(r.events) == 1
  {
    var plan := Plan("c", Fusion, [a, b], 2, [Panel(1, Leaf([a])), Panel(2, Leaf([b]))], None, []);
    var r1 := LeafFrom(w, 0, Leaf([a]), "", false, 0, START);
    OneAttemptCounts(Filled(a, "k"), "", w.call(3, Filled(a, "k"), ""), true);
    assert r1.outcome.Won? && Calls(r1.events) == 1 && r1.t == 4;
    var r2 := LeafFrom(w, 4, Leaf([b]), "", false, 0, START);
    assert LeafFrom(w, 5, Leaf([b]), "", false, 1, START.(sawBreaker := true)).events == [];
    assert r2.outcome.Lost? && r2.events == [];
    assert Run(w, 0, Leaf([a]), "", false) == r1 && Run(w, 4, Leaf([b]), "", false) == r2;
    assert plan.panels[0].plan == Leaf([a]) && plan.panels[1].plan == Leaf([b]);
    var p2 := PanelsFrom(w, 4, plan, "", 1);
    assert PanelsFrom(w, r2.t, plan, "", 2) == ([], [], r2.t);
    assert p2.0 == [PanelOutput(2, r2.outcome)] && p2.1 == [];
    var p1 := PanelsFrom(w, 0, plan, "", 0);
    assert p1.0 == [PanelOutput(1, r1.outcome), PanelOutput(2, r2.outcome)];
    assert p1.1 == r1.events;
    assert Successes(p1.0) > 0;
  }
}
