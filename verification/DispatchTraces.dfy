/** What a run of the dispatcher does, told over its events and what the world answers (internal/dispatcher/dispatcher.go,
    structural.go): whom a leaf calls and why it ends, that every attempt is reported, what every stage of a pipeline,
    panel of a fusion and judge is sent, and whose response comes back. */
module DispatchTraces {
  import opened RouteOrder
  import opened RouteGroups
  import opened Dispatch

  function Joined(pieces: seq<seq<Event>>): seq<Event> {
    if pieces == [] then [] else pieces[0] + Joined(pieces[1..])
  }

  // --- a leaf, candidate by candidate ---

  function Credited(c: Cand, credential: string): Cand {
    Cand(c.provider, c.model, if c.credential == "" then credential else c.credential)
  }

  /** What taking up candidate c at question t leaves in the trace: nothing if it is skipped or the request was cancelled,
      a failed build with its report, or one call of the request with its report, which only a streamed answer lacks. */
  ghost predicate Considers(w: World, t: nat, c: Cand, req: Wire, stream: bool, events: seq<Event>) {
    match w.resolve(t, c)
    case Skipped(_) => events == []
    case Ready(credential) =>
      var cc := Credited(c, credential);
      if w.cancelled(t + 1) then events == []
      else match w.build(t + 2, cc)
           case Some(f) => events == [BuildFailed(cc, f), Reported(cc, false)]
           case None =>
             var reply := w.call(t + 3, cc, req);
             if reply.Refused? then events == [Called(cc, req, reply), Reported(cc, false)]
             else if stream then events == [Called(cc, req, reply)]
             else events == [Called(cc, req, reply), Reported(cc, true)]
  }

  /** Candidate c ends the run: on a cancelled context or wait, an answer, or a failure of the request itself. */
  ghost predicate Halts(w: World, t: nat, c: Cand, req: Wire) {
    && w.resolve(t, c).Ready?
    && var cc := Credited(c, w.resolve(t, c).credential);
       || w.cancelled(t + 1)
       || (w.build(t + 2, cc).None?
           && match w.call(t + 3, cc, req)
              case Answered(_) => true
              case Refused(f) => f.scope.Request? || w.cancelled(t + 4) || (f.retryAfter > 0 && !w.waited(t + 5)))
  }

  /** The outcome then, if it was the n-th called. */
  ghost function HaltsWith(w: World, t: nat, c: Cand, req: Wire, n: nat): Outcome
    requires Halts(w, t, c, req)
  {
    var cc := Credited(c, w.resolve(t, c).credential);
    if w.cancelled(t + 1) then Lost(ContextDone)
    else match w.call(t + 3, cc, req)
         case Answered(body) => Won(cc, body, n)
         case Refused(f) => if f.scope.Request? then Lost(Upstream(f)) else Lost(ContextDone)
  }

  /** The failure of the last refused call or failed build. */
  function LastFailure(events: seq<Event>): Option<Failure> {
    if events == [] then None
    else
      match events[|events| - 1]
      case BuildFailed(_, f) => Some(f)
      case Called(_, _, Refused(f)) => Some(f)
      case _ => LastFailure(events[..|events| - 1])
  }

  function Cap(plan: Plan): int { if plan.maxRounds > 0 then plan.maxRounds else |plan.attempts| }

  ghost predicate Saw(w: World, plan: Plan, i: nat, at: seq<nat>, why: Skip)
    requires i + |at| <= |plan.attempts|
  {
    exists k :: 0 <= k < |at| && w.resolve(at[k], plan.attempts[i + k]) == Skipped(why)
  }

  /** The run came to no decision: the attempts ran out, or the allowed calls did. */
  ghost predicate RunsOut(plan: Plan, passed: bool, known: Tally, o: Outcome) {
    && (passed || known.attempts >= Cap(plan))
    && if known.attempts == 0 then o == Lost(NoAttempts(known.sawBreaker, known.sawQuota, |plan.attempts|))
       else if passed then o == Lost(Exhausted(known.attempts, known.last))
       else o == Lost(MaxRounds(Cap(plan)))
  }

  /** The candidates from number i on, taken up one after the other at these questions, none passed over and only the last
      ending the run, while fewer calls were made than the plan allows. */
  ghost predicate Trail(w: World, plan: Plan, req: Wire, stream: bool, i: nat, before: nat, at: seq<nat>,
                        pieces: seq<seq<Event>>)
  {
    && |at| == |pieces| && i + |at| <= |plan.attempts|
    && (forall k | 0 <= k < |at| :: Considers(w, at[k], plan.attempts[i + k], req, stream, pieces[k]))
    && (forall k | 0 <= k < |at| - 1 :: at[k] < at[k + 1] && !Halts(w, at[k], plan.attempts[i + k], req))
    && (forall k | 0 <= k < |at| :: before + Calls(Joined(pieces[..k])) < Cap(plan))
  }

  /** And how the run ends: with the last of them, or because nothing is left to try. */
  ghost predicate EndsAs(w: World, plan: Plan, req: Wire, i: nat, at: seq<nat>, known: Tally, o: Outcome)
    requires i + |at| <= |plan.attempts|
  {
    if at != [] && Halts(w, at[|at| - 1], plan.attempts[i + |at| - 1], req) then
      o == HaltsWith(w, at[|at| - 1], plan.attempts[i + |at| - 1], req, known.attempts)
    else RunsOut(plan, i + |at| == |plan.attempts|, known, o)
  }

  lemma CallsOfPiece(a: Event, b: Event)
    requires !b.Called?
    ensures Calls([a, b]) == if a.Called? then 1 else 0
    ensures Calls([a]) == if a.Called? then 1 else 0
  {
    assert [a, b][1..] == [b] && [b][1..] == [] && [a][1..] == [];
    assert Calls([b]) == 0;
  }

  lemma FailureOfPiece(a: Event, b: Event)
    requires b.Reported?
    ensures LastFailure([a, b]) == LastFailure([a])
    ensures LastFailure([a])
         == match a case BuildFailed(_, f) => Some(f) case Called(_, _, Refused(f)) => Some(f) case _ => None
  {
    assert [a, b][..1] == [a] && [a][..0] == [];
  }

  /** Candidate c decides nothing: the loop goes on with the next one. */
  lemma TryGoes(w: World, t: nat, c: Cand, req: Wire, stream: bool, tally: Tally)
    requires Try(w, t, c, req, stream, tally).Go?
    ensures var m := Try(w, t, c, req, stream, tally);
      && Considers(w, t, c, req, stream, m.events) && !Halts(w, t, c, req) && m.t > t
      && m.tally.attempts == tally.attempts + Calls(m.events)
      && m.tally.sawBreaker == (tally.sawBreaker || w.resolve(t, c) == Skipped(SkipBreaker))
      && m.tally.sawQuota == (tally.sawQuota || w.resolve(t, c) == Skipped(SkipQuota))
      && m.tally.last == if LastFailure(m.events).Some? then LastFailure(m.events) else tally.last
  {
    match w.resolve(t, c)
    case Skipped(_) =>
    case Ready(credential) =>
      var cc := Filled(c, credential);
      var reply := w.call(t + 3, cc, req);
      CallsOfPiece(Called(cc, req, reply), Reported(cc, false));
      FailureOfPiece(Called(cc, req, reply), Reported(cc, false));
      if w.build(t + 2, cc).Some? {
        CallsOfPiece(BuildFailed(cc, w.build(t + 2, cc).value), Reported(cc, false));
        FailureOfPiece(BuildFailed(cc, w.build(t + 2, cc).value), Reported(cc, false));
      }
  }

  lemma TryStops(w: World, t: nat, c: Cand, req: Wire, stream: bool, tally: Tally)
    requires Try(w, t, c, req, stream, tally).Stop?
    ensures var r := Try(w, t, c, req, stream, tally).result;
      && Considers(w, t, c, req, stream, r.events)
      && Halts(w, t, c, req) && r.outcome == HaltsWith(w, t, c, req, tally.attempts + Calls(r.events))
  {
    match w.resolve(t, c)
    case Skipped(_) =>
    case Ready(credential) =>
      var cc := Filled(c, credential);
      var reply := w.call(t + 3, cc, req);
      CallsOfPiece(Called(cc, req, reply), Reported(cc, reply.Answered?));
      assert [Called(cc, req, reply)] + [Reported(cc, true)] == [Called(cc, req, reply), Reported(cc, true)];
      assert [Called(cc, req, reply)] + [] == [Called(cc, req, reply)];
  }

  // --- the whole leaf ---

  lemma {:induction false} FailureConcat(a: seq<Event>, b: seq<Event>)
    ensures LastFailure(a + b) == if LastFailure(b).Some? then LastFailure(b) else LastFailure(a)
  {
    if b == [] {
      assert a + b == a;
    } else {
      assert (a + b)[..|a + b| - 1] == a + b[..|b| - 1];
      FailureConcat(a, b[..|b| - 1]);
    }
  }

  lemma JoinedHead(piece: seq<Event>, pieces: seq<seq<Event>>, k: nat)
    requires 0 < k <= |pieces| + 1
    ensures Joined(([piece] + pieces)[..k]) == piece + Joined(pieces[..k - 1])
  {
    assert ([piece] + pieces)[..k] == [piece] + pieces[..k - 1];
    assert ([piece] + pieces[..k - 1])[1..] == pieces[..k - 1];
  }

  lemma JoinedAll(piece: seq<Event>, pieces: seq<seq<Event>>)
    ensures Joined([piece] + pieces) == piece + Joined(pieces)
  {
    JoinedHead(piece, pieces, |pieces| + 1);
    assert ([piece] + pieces)[..|pieces| + 1] == [piece] + pieces && pieces[..|pieces|] == pieces;
  }

  lemma TrailGoesOn(w: World, plan: Plan, req: Wire, stream: bool, i: nat, before: nat, t: nat, piece: seq<Event>,
                    at: seq<nat>, pieces: seq<seq<Event>>)
    requires i < |plan.attempts| && before < Cap(plan) && Considers(w, t, plan.attempts[i], req, stream, piece)
    requires Trail(w, plan, req, stream, i + 1, before + Calls(piece), at, pieces)
    requires at != [] ==> t < at[0] && !Halts(w, t, plan.attempts[i], req)
    ensures Trail(w, plan, req, stream, i, before, [t] + at, [piece] + pieces)
  {
    var at', pieces' := [t] + at, [piece] + pieces;
    forall k | 0 <= k < |at'| ensures Considers(w, at'[k], plan.attempts[i + k], req, stream, pieces'[k]) {
      if k > 0 {
        assert at'[k] == at[k - 1] && pieces'[k] == pieces[k - 1];
        assert plan.attempts[i + k] == plan.attempts[i + 1 + (k - 1)];
      }
    }
    forall k | 0 <= k < |at'| - 1 ensures at'[k] < at'[k + 1] && !Halts(w, at'[k], plan.attempts[i + k], req) {
      if k > 0 { assert at'[k] == at[k - 1] && plan.attempts[i + k] == plan.attempts[i + 1 + (k - 1)]; }
    }
    forall k | 0 <= k < |at'| ensures before + Calls(Joined(pieces'[..k])) < Cap(plan) {
      if k > 0 {
        JoinedHead(piece, pieces, k);
        CountsAdd(piece, Joined(pieces[..k - 1]));
      } else {
        assert pieces'[..0] == [];
      }
    }
  }

  lemma SawGoesOn(w: World, plan: Plan, i: nat, t: nat, at: seq<nat>, why: Skip)
    requires i + 1 + |at| <= |plan.attempts|
    ensures Saw(w, plan, i, [t] + at, why) <==> w.resolve(t, plan.attempts[i]) == Skipped(why) || Saw(w, plan, i + 1, at, why)
  {
    var at' := [t] + at;
    if Saw(w, plan, i + 1, at, why) {
      var k :| 0 <= k < |at| && w.resolve(at[k], plan.attempts[i + 1 + k]) == Skipped(why);
      assert at'[k + 1] == at[k] && plan.attempts[i + (k + 1)] == plan.attempts[i + 1 + k];
    }
    if w.resolve(t, plan.attempts[i]) == Skipped(why) { assert at'[0] == t && plan.attempts[i + 0] == plan.attempts[i]; }
    if Saw(w, plan, i, at', why) {
      var k :| 0 <= k < |at'| && w.resolve(at'[k], plan.attempts[i + k]) == Skipped(why);
      if k > 0 { assert at'[k] == at[k - 1] && plan.attempts[i + k] == plan.attempts[i + 1 + (k - 1)]; }
    }
  }

  /** What is known once the pieces are done: calls made, circuits and quotas seen, the last failure. */
  ghost function Known(w: World, plan: Plan, i: nat, tally: Tally, at: seq<nat>, pieces: seq<seq<Event>>): Tally
    requires i + |at| <= |plan.attempts|
  {
    var events := Joined(pieces);
    Tally(tally.attempts + Calls(events), if LastFailure(events).Some? then LastFailure(events) else tally.last,
          tally.sawBreaker || Saw(w, plan, i, at, SkipBreaker), tally.sawQuota || Saw(w, plan, i, at, SkipQuota))
  }

  lemma KnownGoesOn(w: World, plan: Plan, req: Wire, stream: bool, i: nat, tally: Tally, t: nat, at: seq<nat>,
                    pieces: seq<seq<Event>>)
    requires i + 1 + |at| <= |plan.attempts| && Try(w, t, plan.attempts[i], req, stream, tally).Go?
    ensures var m := Try(w, t, plan.attempts[i], req, stream, tally);
      Known(w, plan, i, tally, [t] + at, [m.events] + pieces) == Known(w, plan, i + 1, m.tally, at, pieces)
  {
    var m := Try(w, t, plan.attempts[i], req, stream, tally);
    TryGoes(w, t, plan.attempts[i], req, stream, tally);
    JoinedAll(m.events, pieces);
    CountsAdd(m.events, Joined(pieces));
    FailureConcat(m.events, Joined(pieces));
    SawGoesOn(w, plan, i, t, at, SkipBreaker);
    SawGoesOn(w, plan, i, t, at, SkipQuota);
  }

  /** The trail and end of a leaf's run from candidate i on. */
  ghost predicate Tells(w: World, t: nat, plan: Plan, req: Wire, stream: bool, i: nat, tally: Tally, at: seq<nat>,
                        pieces: seq<seq<Event>>, r: Result)
  {
    && r.events == Joined(pieces) && Trail(w, plan, req, stream, i, tally.attempts, at, pieces)
    && (at != [] ==> at[0] == t)
    && EndsAs(w, plan, req, i, at, Known(w, plan, i, tally, at, pieces), r.outcome)
  }

  lemma EndsGoesOn(w: World, plan: Plan, req: Wire, i: nat, t: nat, at: seq<nat>, known: Tally, o: Outcome)
    requires i + 1 + |at| <= |plan.attempts| && !Halts(w, t, plan.attempts[i], req)
    requires EndsAs(w, plan, req, i + 1, at, known, o)
    ensures EndsAs(w, plan, req, i, [t] + at, known, o)
  {
  }

  lemma TellsGoesOn(w: World, t: nat, plan: Plan, req: Wire, stream: bool, i: nat, tally: Tally, at: seq<nat>,
                    pieces: seq<seq<Event>>, rest: Result)
    requires i < |plan.attempts| && tally.attempts < Cap(plan) && Try(w, t, plan.attempts[i], req, stream, tally).Go?
    requires var m := Try(w, t, plan.attempts[i], req, stream, tally);
      Tells(w, m.t, plan, req, stream, i + 1, m.tally, at, pieces, rest)
    ensures var m := Try(w, t, plan.attempts[i], req, stream, tally);
      Tells(w, t, plan, req, stream, i, tally, [t] + at, [m.events] + pieces, After(m.events, rest))
  {
    var m := Try(w, t, plan.attempts[i], req, stream, tally);
    TryGoes(w, t, plan.attempts[i], req, stream, tally);
    assert Trail(w, plan, req, stream, i, tally.attempts, [t] + at, [m.events] + pieces) by {
      TrailGoesOn(w, plan, req, stream, i, tally.attempts, t, m.events, at, pieces);
    }
    var known := Known(w, plan, i + 1, m.tally, at, pieces);
    EndsGoesOn(w, plan, req, i, t, at, known, rest.outcome);
    KnownGoesOn(w, plan, req, stream, i, tally, t, at, pieces);
    JoinedAll(m.events, pieces);
  }

  lemma TellsStop(w: World, t: nat, plan: Plan, req: Wire, stream: bool, i: nat, tally: Tally)
    requires i < |plan.attempts| && tally.attempts < Cap(plan) && Try(w, t, plan.attempts[i], req, stream, tally).Stop?
    ensures var r := Try(w, t, plan.attempts[i], req, stream, tally).result;
      Tells(w, t, plan, req, stream, i, tally, [t], [r.events], r)
  {
    var r := Try(w, t, plan.attempts[i], req, stream, tally).result;
    TryStops(w, t, plan.attempts[i], req, stream, tally);
    TrailGoesOn(w, plan, req, stream, i, tally.attempts, t, r.events, [], []);
    JoinedAll(r.events, []);
    assert [t] + [] == [t] && [r.events] + [] == [r.events] && r.events + [] == r.events;
  }

  lemma {:induction false} LeafTells(w: World, t: nat, plan: Plan, req: Wire, stream: bool, i: nat, tally: Tally)
    returns (at: seq<nat>, pieces: seq<seq<Event>>)
    requires i <= |plan.attempts|
    ensures Tells(w, t, plan, req, stream, i, tally, at, pieces, LeafFrom(w, t, plan, req, stream, i, tally))
    decreases |plan.attempts| - i
  {
    at, pieces := [], [];
    if i < |plan.attempts| && tally.attempts < Rounds(plan) {
      var m := Try(w, t, plan.attempts[i], req, stream, tally);
      if m.Stop? {
        TellsStop(w, t, plan, req, stream, i, tally);
        at, pieces := [t], [m.result.events];
      } else {
        at, pieces := LeafTells(w, m.t, plan, req, stream, i + 1, m.tally);
        TellsGoesOn(w, t, plan, req, stream, i, tally, at, pieces, LeafFrom(w, m.t, plan, req, stream, i + 1, m.tally));
        at, pieces := [t] + at, [m.events] + pieces;
      }
    }
  }

  predicate IsLeaf(plan: Plan) { plan.panels == [] && plan.chain == [] }

  /** A leaf takes up its candidates in order, passes none over and calls each it can, until one decides, the allowed calls
      are made or none is left; and its outcome says which, with the reasons for skipping and the last failure. */
  lemma LeafTrail(w: World, t: nat, plan: Plan, req: Wire, stream: bool) returns (at: seq<nat>, pieces: seq<seq<Event>>)
    requires IsLeaf(plan)
    ensures var r := Run(w, t, plan, req, stream);
      && r.events == Joined(pieces) && Trail(w, plan, req, stream, 0, 0, at, pieces)
      && EndsAs(w, plan, req, 0, at, Tally(Calls(r.events), LastFailure(r.events), Saw(w, plan, 0, at, SkipBreaker),
                                           Saw(w, plan, 0, at, SkipQuota)), r.outcome)
  {
    at, pieces := LeafTells(w, t, plan, req, stream, 0, START);
  }

  // --- every attempt is reported ---

  /** Event i, if a report, directly follows the call or failed build it reports, on the same candidate and with its result;
      if one of these, it is reported next, unless it is the answer that ends an `open` trace. */
  ghost predicate ReportedAt(events: seq<Event>, i: nat, open: bool)
    requires i < |events|
  {
    if events[i].Reported? then
      && i > 0 && !events[i - 1].Reported? && events[i].c == events[i - 1].c
      && (events[i].success <==> events[i - 1].Called? && events[i - 1].reply.Answered?)
    else
      || (i + 1 < |events| && events[i + 1].Reported?)
      || (open && i + 1 == |events| && events[i].Called? && events[i].reply.Answered?)
  }

  ghost predicate ReportsFollow(events: seq<Event>, open: bool) {
    forall i | 0 <= i < |events| :: ReportedAt(events, i, open)
  }

  lemma ReportsConcat(a: seq<Event>, b: seq<Event>, open: bool)
    requires ReportsFollow(a, false) && ReportsFollow(b, open)
    ensures ReportsFollow(a + b, open)
  {
    var s := a + b;
    forall i | 0 <= i < |s| ensures ReportedAt(s, i, open) {
      if i < |a| {
        assert ReportedAt(a, i, false);
      } else {
        assert ReportedAt(b, i - |a|, open);
      }
    }
  }

  lemma ReportsWeaken(events: seq<Event>, open: bool)
    requires ReportsFollow(events, false)
    ensures ReportsFollow(events, open)
  {
    forall i | 0 <= i < |events| ensures ReportedAt(events, i, open) {
      assert ReportedAt(events, i, false);
    }
  }

  lemma TryReports(w: World, t: nat, c: Cand, req: Wire, stream: bool, tally: Tally)
    ensures match Try(w, t, c, req, stream, tally)
            case Stop(r) => ReportsFollow(r.events, stream && r.outcome.Won?)
            case Go(events, _, _) => ReportsFollow(events, false)
  {
  }

  lemma {:induction false} LeafReports(w: World, t: nat, plan: Plan, req: Wire, stream: bool, i: nat, tally: Tally)
    requires i <= |plan.attempts|
    ensures var r := LeafFrom(w, t, plan, req, stream, i, tally); ReportsFollow(r.events, stream && r.outcome.Won?)
    decreases |plan.attempts| - i
  {
    if i < |plan.attempts| && tally.attempts < Rounds(plan) {
      var m := Try(w, t, plan.attempts[i], req, stream, tally);
      TryReports(w, t, plan.attempts[i], req, stream, tally);
      if m.Go? {
        var rest := LeafFrom(w, m.t, plan, req, stream, i + 1, m.tally);
        LeafReports(w, m.t, plan, req, stream, i + 1, m.tally);
        ReportsConcat(m.events, rest.events, stream && rest.outcome.Won?);
      }
    }
  }

  /** In every run of every plan each call and each failed build is reported to the breaker at once, with its result; only
      the answer a streaming run ends with is not. */
  lemma {:induction false} RunReports(w: World, t: nat, plan: Plan, req: Wire, stream: bool)
    ensures var r := Run(w, t, plan, req, stream); ReportsFollow(r.events, stream && r.outcome.Won?)
    decreases plan, 1, 0
  {
    if plan.panels != [] {
      if |plan.panels| <= Dispatch.MAX_FANOUT {
        PanelsReport(w, t, plan, req, 0);
        var (outputs, events, t1) := PanelsFrom(w, t, plan, req, 0);
        if Successes(outputs) > 0 && plan.judge.Some? {
          var r := Run(w, t1, plan.judge.value, w.judge(req, outputs), stream);
          RunReports(w, t1, plan.judge.value, w.judge(req, outputs), stream);
          ReportsConcat(events, r.events, stream && r.outcome.Won?);
        } else {
          ReportsWeaken(events, stream);
        }
      }
    } else if plan.chain != [] {
      ChainReports(w, t, plan, req, stream, 0, 0);
    } else {
      LeafReports(w, t, plan, req, stream, 0, START);
    }
  }

  lemma {:induction false} PanelsReport(w: World, t: nat, plan: Plan, req: Wire, k: nat)
    requires k <= |plan.panels|
    ensures ReportsFollow(PanelsFrom(w, t, plan, req, k).1, false)
    decreases plan, 0, |plan.panels| - k
  {
    if k < |plan.panels| {
      var r := Run(w, t, plan.panels[k].plan, req, false);
      RunReports(w, t, plan.panels[k].plan, req, false);
      PanelsReport(w, r.t, plan, req, k + 1);
      ReportsConcat(r.events, PanelsFrom(w, r.t, plan, req, k + 1).1, false);
    }
  }

  lemma {:induction false} ChainReports(w: World, t: nat, plan: Plan, cur: Wire, stream: bool, k: nat, total: nat)
    requires k < |plan.chain|
    ensures var r := ChainFrom(w, t, plan, cur, stream, k, total); ReportsFollow(r.events, stream && r.outcome.Won?)
    decreases plan, 0, |plan.chain| - k
  {
    var last := k == |plan.chain| - 1;
    var r := Run(w, t, plan.chain[k], cur, last && stream);
    RunReports(w, t, plan.chain[k], cur, last && stream);
    if !last && r.outcome.Won? {
      var cur' := w.feed(cur, r.outcome.body);
      var rest := ChainFrom(w, r.t, plan, cur', stream, k + 1, total + r.outcome.attempts);
      ChainReports(w, r.t, plan, cur', stream, k + 1, total + r.outcome.attempts);
      ReportsConcat(r.events, rest.events, stream && rest.outcome.Won?);
    }
  }

  // --- what a leaf sends and returns ---

  ghost predicate AllCarry(events: seq<Event>, req: Wire) {
    forall e | e in events && e.Called? :: e.req == req
  }

  lemma {:induction false} LeafCarries(w: World, t: nat, plan: Plan, req: Wire, stream: bool, i: nat, tally: Tally)
    requires i <= |plan.attempts|
    ensures AllCarry(LeafFrom(w, t, plan, req, stream, i, tally).events, req)
    decreases |plan.attempts| - i
  {
    if i < |plan.attempts| && tally.attempts < Rounds(plan) {
      var m := Try(w, t, plan.attempts[i], req, stream, tally);
      if m.Go? { LeafCarries(w, m.t, plan, req, stream, i + 1, m.tally); }
    }
  }

  /** The last call of the trace. */
  function LastCall(events: seq<Event>): Option<Event> {
    if events == [] then None
    else if events[|events| - 1].Called? then Some(events[|events| - 1])
    else LastCall(events[..|events| - 1])
  }

  lemma {:induction false} LastCallOf(events: seq<Event>)
    ensures LastCall(events) == if CallsOf(events) == [] then None else Some(CallsOf(events)[|CallsOf(events)| - 1])
  {
    if events != [] {
      var p, last := events[..|events| - 1], events[|events| - 1];
      LastCallOf(p);
      CallsOfConcat(p, [last]);
      assert events == p + [last] && [last][1..] == [];
    }
  }

  /** The trace ends with this answer from this candidate, or with no answer at all. */
  predicate Answers(events: seq<Event>, o: Outcome) {
    match LastCall(events)
    case Some(Called(c, _, Answered(body))) => o.Won? && o.cand == c && o.body == body
    case _ => o.Lost?
  }

  /** A leaf sends the request it is given to everyone it calls, and its response is the answer of its last call. */
  lemma LeafSends(w: World, t: nat, plan: Plan, req: Wire, stream: bool)
    requires IsLeaf(plan)
    ensures var r := Run(w, t, plan, req, stream);
      AllCarry(r.events, req) && Answers(r.events, r.outcome) && (r.outcome.Won? ==> r.outcome.attempts == Calls(r.events))
  {
    var r := Run(w, t, plan, req, stream);
    LeafCarries(w, t, plan, req, stream, 0, START);
    LeafIsFailover(w, t, plan, req, stream, 0, START);
    LeafCounts(w, t, plan, req, stream, 0, START);
    LastCallOf(r.events);
    assert forall e | e in CallsOf(r.events) :: e.Called?;
  }

  // --- pipelines ---

  function EventsOf(parts: seq<Result>): (pieces: seq<seq<Event>>)
    ensures |pieces| == |parts| && forall k | 0 <= k < |parts| :: pieces[k] == parts[k].events
  {
    seq(|parts|, k requires 0 <= k < |parts| => parts[k].events)
  }

  lemma JoinedParts(first: Result, parts: seq<Result>)
    ensures Joined(EventsOf([first] + parts)) == first.events + Joined(EventsOf(parts))
  {
    assert EventsOf([first] + parts) == [first.events] + EventsOf(parts);
    JoinedAll(first.events, EventsOf(parts));
  }

  /** The attempts the winning parts claim. */
  function Claimed(parts: seq<Result>): nat {
    if parts == [] then 0 else (if parts[0].outcome.Won? then parts[0].outcome.attempts else 0) + Claimed(parts[1..])
  }

  /** Part j of these is stage k + j of the plan run on its wire, when the part before it is over; only the last stage of
      the plan may stream. */
  ghost predicate StageAt(w: World, t: nat, plan: Plan, stream: bool, k: nat, wires: seq<Wire>, parts: seq<Result>, j: nat)
    requires j < |parts| == |wires| && k + j < |plan.chain|
  {
    parts[j] == Run(w, if j == 0 then t else parts[j - 1].t, plan.chain[k + j], wires[j], stream && k + j == |plan.chain| - 1)
  }

  /** Stages k and on, one after the other: each is run on what the stage before it left, and only if that one won. */
  ghost predicate Stages(w: World, t: nat, plan: Plan, cur: Wire, stream: bool, k: nat, wires: seq<Wire>, parts: seq<Result>) {
    && 0 < |parts| == |wires| && k + |parts| <= |plan.chain| && wires[0] == cur
    && (forall j | 0 <= j < |parts| :: StageAt(w, t, plan, stream, k, wires, parts, j))
    && (forall j | 0 <= j < |parts| - 1 :: parts[j].outcome.Won? && wires[j + 1] == w.feed(wires[j], parts[j].outcome.body))
    && (parts[|parts| - 1].outcome.Won? ==> k + |parts| == |plan.chain|)
  }

  /** The run is its stages: their events, and the outcome of the last one run, with the attempts of all. */
  ghost predicate ComesTo(parts: seq<Result>, total: nat, r: Result) {
    && parts != [] && r.events == Joined(EventsOf(parts)) && r.t == parts[|parts| - 1].t
    && var o := parts[|parts| - 1].outcome;
       if o.Won? then r.outcome == Won(o.cand, o.body, total + Claimed(parts)) else r.outcome == o
  }

  lemma OneStage(r: Result, total: nat)
    ensures ComesTo([r], total, r.(outcome := AddAttempts(r.outcome, total)))
  {
    assert EventsOf([r]) == [r.events] + [];
    JoinedAll(r.events, []);
    assert r.events + [] == r.events && [r][1..] == [];
  }

  lemma StageThen(first: Result, parts: seq<Result>, total: nat, rest: Result)
    requires first.outcome.Won? && ComesTo(parts, total + first.outcome.attempts, rest)
    ensures ComesTo([first] + parts, total, After(first.events, rest))
  {
    JoinedParts(first, parts);
    assert ([first] + parts)[1..] == parts;
  }

  lemma StagesThen(w: World, t: nat, plan: Plan, cur: Wire, stream: bool, k: nat, wires: seq<Wire>, parts: seq<Result>)
    requires k + 1 < |plan.chain|
    requires var r := Run(w, t, plan.chain[k], cur, false);
      r.outcome.Won? && Stages(w, r.t, plan, w.feed(cur, r.outcome.body), stream, k + 1, wires, parts)
    ensures Stages(w, t, plan, cur, stream, k, [cur] + wires, [Run(w, t, plan.chain[k], cur, false)] + parts)
  {
    var first := Run(w, t, plan.chain[k], cur, false);
    var wires', parts' := [cur] + wires, [first] + parts;
    forall j | 0 <= j < |parts'| ensures StageAt(w, t, plan, stream, k, wires', parts', j) {
      if j > 0 {
        assert StageAt(w, first.t, plan, stream, k + 1, wires, parts, j - 1);
        assert plan.chain[k + j] == plan.chain[k + 1 + (j - 1)];
      }
    }
    forall j | 0 <= j < |parts'| - 1
      ensures parts'[j].outcome.Won? && wires'[j + 1] == w.feed(wires'[j], parts'[j].outcome.body)
    {
      if j > 0 { assert parts'[j] == parts[j - 1] && wires'[j] == wires[j - 1] && wires'[j + 1] == wires[j]; }
    }
  }

  lemma {:induction false} ChainStages(w: World, t: nat, plan: Plan, cur: Wire, stream: bool, k: nat, total: nat)
    returns (wires: seq<Wire>, parts: seq<Result>)
    requires k < |plan.chain|
    ensures Stages(w, t, plan, cur, stream, k, wires, parts)
    ensures ComesTo(parts, total, ChainFrom(w, t, plan, cur, stream, k, total))
    decreases |plan.chain| - k
  {
    var last := k == |plan.chain| - 1;
    var r := Run(w, t, plan.chain[k], cur, last && stream);
    if last || r.outcome.Lost? {
      wires, parts := [cur], [r];
      OneStage(r, total);
    } else {
      var cur', total' := w.feed(cur, r.outcome.body), total + r.outcome.attempts;
      wires, parts := ChainStages(w, r.t, plan, cur', stream, k + 1, total');
      StagesThen(w, t, plan, cur, stream, k, wires, parts);
      StageThen(r, parts, total, ChainFrom(w, r.t, plan, cur', stream, k + 1, total'));
      wires, parts := [cur] + wires, [r] + parts;
    }
  }

  /** A pipeline of any plans: the first stage gets the request, each later one what feeding the answer of the stage before
      it into that one's request makes; the response is that of the last stage. */
  lemma PipelineStages(w: World, t: nat, plan: Plan, req: Wire, stream: bool) returns (wires: seq<Wire>, parts: seq<Result>)
    requires plan.panels == [] && plan.chain != []
    ensures Stages(w, t, plan, req, stream, 0, wires, parts) && ComesTo(parts, 0, Run(w, t, plan, req, stream))
  {
    wires, parts := ChainStages(w, t, plan, req, stream, 0, 0);
  }

  /** For a pipeline of leaves, in the events of the run alone: every call of stage k carries the same request, that of
      stage k + 1 being fed from it and the answer of stage k's last call; a stage is called only if the one before it
      was answered; and the response is the answer of the last stage, counting all calls. */
  lemma PipelineWires(w: World, t: nat, plan: Plan, req: Wire, stream: bool)
    returns (stages: seq<seq<Event>>, wires: seq<Wire>, ends: seq<Outcome>)
    requires plan.panels == [] && plan.chain != [] && forall k | 0 <= k < |plan.chain| :: IsLeaf(plan.chain[k])
    ensures var r := Run(w, t, plan, req, stream);
      && r.events == Joined(stages) && 0 < |stages| == |wires| == |ends| <= |plan.chain| && wires[0] == req
      && (forall k | 0 <= k < |stages| :: AllCarry(stages[k], wires[k]) && Answers(stages[k], ends[k]))
      && (forall k | 0 <= k < |stages| - 1 :: ends[k].Won? && wires[k + 1] == w.feed(wires[k], ends[k].body))
      && (r.outcome.Won? ==> |stages| == |plan.chain| && r.outcome.attempts == Calls(r.events))
      && Answers(stages[|stages| - 1], r.outcome)
  {
    var parts: seq<Result>;
    wires, parts := PipelineStages(w, t, plan, req, stream);
    stages := EventsOf(parts);
    ends := seq(|parts|, k requires 0 <= k < |parts| => parts[k].outcome);
    forall k | 0 <= k < |parts| ensures AllCarry(stages[k], wires[k]) && Answers(stages[k], ends[k]) {
      assert StageAt(w, t, plan, stream, 0, wires, parts, k);
      LeafSends(w, if k == 0 then t else parts[k - 1].t, plan.chain[k], wires[k], stream && k == |plan.chain| - 1);
    }
    AttemptsAreCalls(w, t, plan, req, stream);
  }

  // --- fusions ---

  /** What the judge, or the fallback, is given of a panel's run. */
  ghost predicate Shows(output: PanelResult, number: nat, o: Outcome) {
    if o.Won? then output == PanelResult(number, true, o.cand, o.body) else output == PanelResult(number, false, NOBODY, "")
  }

  ghost predicate PanelAt(w: World, t: nat, plan: Plan, req: Wire, k: nat, parts: seq<Result>, j: nat)
    requires j < |parts| && k + j < |plan.panels|
  {
    parts[j] == Run(w, if j == 0 then t else parts[j - 1].t, plan.panels[k + j].plan, req, false)
  }

  /** Panels k and on, each run on the request itself and never streaming. */
  ghost predicate Panels(w: World, t: nat, plan: Plan, req: Wire, k: nat, parts: seq<Result>, outputs: seq<PanelResult>) {
    && |parts| == |outputs| && k + |parts| == |plan.panels|
    && (forall j | 0 <= j < |parts| :: PanelAt(w, t, plan, req, k, parts, j))
    && (forall j | 0 <= j < |parts| :: Shows(outputs[j], plan.panels[k + j].number, parts[j].outcome))
  }

  lemma {:induction false} PanelParts(w: World, t: nat, plan: Plan, req: Wire, k: nat) returns (parts: seq<Result>)
    requires k <= |plan.panels|
    ensures var (outputs, events, t1) := PanelsFrom(w, t, plan, req, k);
      && Panels(w, t, plan, req, k, parts, outputs) && events == Joined(EventsOf(parts))
      && t1 == if parts == [] then t else parts[|parts| - 1].t
    decreases |plan.panels| - k
  {
    if k == |plan.panels| {
      parts := [];
    } else {
      var r := Run(w, t, plan.panels[k].plan, req, false);
      var rest := PanelParts(w, r.t, plan, req, k + 1);
      PanelsThen(w, t, plan, req, k, rest, PanelsFrom(w, r.t, plan, req, k + 1).0);
      JoinedParts(r, rest);
      parts := [r] + rest;
    }
  }

  lemma PanelsThen(w: World, t: nat, plan: Plan, req: Wire, k: nat, parts: seq<Result>, outputs: seq<PanelResult>)
    requires k < |plan.panels|
    requires Panels(w, Run(w, t, plan.panels[k].plan, req, false).t, plan, req, k + 1, parts, outputs)
    ensures var r := Run(w, t, plan.panels[k].plan, req, false);
      Panels(w, t, plan, req, k, [r] + parts, [PanelOutput(plan.panels[k].number, r.outcome)] + outputs)
  {
    var r := Run(w, t, plan.panels[k].plan, req, false);
    var parts', outputs' := [r] + parts, [PanelOutput(plan.panels[k].number, r.outcome)] + outputs;
    forall j | 0 <= j < |parts'|
      ensures PanelAt(w, t, plan, req, k, parts', j) && Shows(outputs'[j], plan.panels[k + j].number, parts'[j].outcome)
    {
      if j > 0 {
        assert PanelAt(w, r.t, plan, req, k + 1, parts, j - 1);
        assert plan.panels[k + j] == plan.panels[k + 1 + (j - 1)];
        assert outputs'[j] == outputs[j - 1] && parts'[j] == parts[j - 1];
      }
    }
  }

  function Ok(): PanelResult -> bool { (o: PanelResult) => o.ok }

  lemma {:induction false} SuccessesAreOk(outputs: seq<PanelResult>)
    ensures Successes(outputs) == |Keep(Ok(), outputs)|
  {
    if outputs != [] { SuccessesAreOk(outputs[1..]); }
  }

  lemma {:induction false} FirstIsFirstOk(outputs: seq<PanelResult>, n: nat)
    requires Successes(outputs) > 0
    ensures var first := Keep(Ok(), outputs); first != [] && FirstSuccess(outputs, n) == Won(first[0].cand, first[0].body, n)
  {
    SuccessesAreOk(outputs);
    if !outputs[0].ok { FirstIsFirstOk(outputs[1..], n); }
  }

  /** What a fusion makes of its panels' outputs: an error if none succeeded; without a judge the response of the first
      that did, counting all panels; else what the judge, run on the request with the outputs, answers, counting its
      attempts and the successful panels. `judged` are the events of the judge's run. */
  ghost predicate Fuses(w: World, t1: nat, plan: Plan, req: Wire, stream: bool, outputs: seq<PanelResult>,
                        judged: seq<Event>, o: Outcome)
  {
    var good := Keep(Ok(), outputs);
    if good == [] then o == Lost(AllPanelsFailed(|plan.panels|)) && judged == []
    else if plan.judge.None? then o == Won(good[0].cand, good[0].body, |plan.panels|) && judged == []
    else
      var r := Run(w, t1, plan.judge.value, w.judge(req, outputs), stream);
      && judged == r.events
      && o == if r.outcome.Won? then Won(r.outcome.cand, r.outcome.body, |good| + r.outcome.attempts) else r.outcome
  }

  /** A fusion of any plans: every panel gets the request itself, in turn, and what the panels put out decides. More than
      eight panels are refused without a call. */
  lemma FusionPanels(w: World, t: nat, plan: Plan, req: Wire, stream: bool)
    returns (parts: seq<Result>, outputs: seq<PanelResult>, judged: seq<Event>)
    requires plan.panels != []
    ensures var r := Run(w, t, plan, req, stream);
      if |plan.panels| > 8 then r.outcome == Lost(TooManyPanels(|plan.panels|)) && r.events == []
      else
        && Panels(w, t, plan, req, 0, parts, outputs) && r.events == Joined(EventsOf(parts)) + judged
        && Fuses(w, parts[|parts| - 1].t, plan, req, stream, outputs, judged, r.outcome)
  {
    parts := PanelParts(w, t, plan, req, 0);
    var (outs, events, t1) := PanelsFrom(w, t, plan, req, 0);
    outputs := outs;
    SuccessesAreOk(outputs);
    judged := [];
    if |plan.panels| <= 8 {
      if Successes(outputs) == 0 || plan.judge.None? {
        if Successes(outputs) > 0 { FirstIsFirstOk(outputs, |outputs|); }
        assert events + [] == events;
      } else {
        judged := Run(w, t1, plan.judge.value, w.judge(req, outputs), stream).events;
      }
    }
  }

  /** For a fusion of leaves judged by a leaf, in the events of the run alone: every panel's calls carry the request, and
      its output is the answer of its last call; the judge's calls carry the request made of the outputs, and the
      response is its answer, or without a judge that of the first panel that was answered. */
  lemma FusionWires(w: World, t: nat, plan: Plan, req: Wire, stream: bool)
    returns (panels: seq<seq<Event>>, outputs: seq<PanelResult>, judged: seq<Event>)
    requires 0 < |plan.panels| <= 8 && (forall k | 0 <= k < |plan.panels| :: IsLeaf(plan.panels[k].plan))
    requires plan.judge.Some? ==> IsLeaf(plan.judge.value)
    ensures var r := Run(w, t, plan, req, stream);
      && r.events == Joined(panels) + judged && |panels| == |outputs| == |plan.panels|
      && (forall k | 0 <= k < |panels| :: AllCarry(panels[k], req) && AnswersPanel(panels[k], plan.panels[k].number, outputs[k]))
      && AllCarry(judged, w.judge(req, outputs))
      && var good := Keep(Ok(), outputs);
         if good == [] then r.outcome == Lost(AllPanelsFailed(|plan.panels|)) && judged == []
         else if plan.judge.None? then r.outcome == Won(good[0].cand, good[0].body, |plan.panels|) && judged == []
         else Answers(judged, r.outcome) && (r.outcome.Won? ==> r.outcome.attempts == |good| + Calls(judged))
  {
    var parts: seq<Result>;
    parts, outputs, judged := FusionPanels(w, t, plan, req, stream);
    panels := EventsOf(parts);
    forall k | 0 <= k < |parts| ensures AllCarry(panels[k], req) && AnswersPanel(panels[k], plan.panels[k].number, outputs[k]) {
      assert PanelAt(w, t, plan, req, 0, parts, k);
      assert Shows(outputs[k], plan.panels[0 + k].number, parts[k].outcome);
      LeafSends(w, if k == 0 then t else parts[k - 1].t, plan.panels[k].plan, req, false);
    }
    if judged != [] || (Keep(Ok(), outputs) != [] && plan.judge.Some?) {
      LeafSends(w, parts[|parts| - 1].t, plan.judge.value, w.judge(req, outputs), stream);
    }
  }

  /** A panel's output under its number: the answer of its last call, or that there was none. */
  predicate AnswersPanel(events: seq<Event>, number: nat, output: PanelResult) {
    output.number == number
    && match LastCall(events)
       case Some(Called(c, _, Answered(body))) => output.ok && output.cand == c && output.body == body
       case _ => !output.ok
  }
}
