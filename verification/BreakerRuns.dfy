/** What the breaker guarantees over whole runs of calls. */
module BreakerRuns {
  import opened BreakerCircuit
  import opened Breaker

  // --- one Allow ---

  lemma ReleaseUndoesReserve(t: KeyState)
    requires Admits(t)
    ensures Released(Reserved(t)) == Released(t) == t
  {
  }

  lemma {:induction false} ReleaseFromAt(m: Circuits, ks: seq<Key>, j: nat, n: nat, k: Key)
    requires Distinct(ks) && j <= n <= |ks|
    ensures At(ReleaseFrom(m, ks, j, n), k)
         == if exists i :: j <= i < n && ks[i] == k then Released(At(m, k)) else At(m, k)
    decreases n - j
  {
    if j < n {
      var m1 := m[ks[j] := Released(At(m, ks[j]))];
      ReleaseFromAt(m1, ks, j + 1, n, k);
      if ks[j] == k {
        assert forall i | j + 1 <= i < n :: ks[i] != k;
      } else if i :| j <= i < n && ks[i] == k {
        assert j + 1 <= i;
      }
    }
  }

  predicate AllAdmit(m: Circuits, ks: seq<Key>, clock: Clock, i: nat)
    requires i <= |ks|
  {
    forall j | i <= j < |ks| :: Admits(Transition(At(m, ks[j]), clock(j)))
  }

  /** A grant reserves every key; a denial leaves keys i and later at most brought up to date. */
  lemma {:induction false} AllowAt(m: Circuits, ks: seq<Key>, clock: Clock, i: nat, k: Key)
    requires Distinct(ks) && i <= |ks|
    ensures var r := AllowFrom(false, m, ks, clock, i);
      && (r.1 <==> AllAdmit(m, ks, clock, i))
      && (forall j | 0 <= j < i && ks[j] == k :: At(r.0, k) == if r.1 then At(m, k) else Released(At(m, k)))
      && (forall j | i <= j < |ks| && ks[j] == k ::
            if r.1 then At(r.0, k) == Reserved(Transition(At(m, k), clock(j)))
            else At(r.0, k) == Transition(At(m, k), clock(j)) || At(r.0, k) == At(m, k))
      && (k !in ks ==> At(r.0, k) == At(m, k))
    decreases |ks| - i
  {
    if i < |ks| {
      var t := Transition(At(m, ks[i]), clock(i));
      var s := m[ks[i] := t];
      if Admits(t) {
        var s' := s[ks[i] := Reserved(t)];
        AllowAt(s', ks, clock, i + 1, k);
        assert forall j | i + 1 <= j < |ks| :: At(s', ks[j]) == At(m, ks[j]);
        ReleaseUndoesReserve(t);
        if ks[i] == k {
          assert forall j | 0 <= j < |ks| && ks[j] == k :: j == i;
        }
      } else {
        ReleaseFromAt(s, ks, 0, i, k);
        if ks[i] == k {
          assert forall j | 0 <= j < |ks| && ks[j] == k :: j == i;
        }
      }
    }
  }

  /** Allow grants exactly when every key of the candidate would admit it alone; a denial strands no probe: every
      circuit is as it was found, or as a mere look at it would have left it. */
  lemma AllowAllOrNothing(cfg: Config, m: Circuits, c: Candidate, clock: Clock)
    ensures var (m', a) := Exec(false, cfg, m, Allow(c, clock));
      && (a == Says(true) <==> AllAdmit(m, AllKeysFor(c), clock, 0))
      && (a == Says(false) ==> forall k ::
            At(m', k) == At(m, k) || exists j :: 0 <= j < |AllKeysFor(c)| && AllKeysFor(c)[j] == k
                                                 && At(m', k) == Transition(At(m, k), clock(j)))
      && (a == Says(true) ==> forall j | 0 <= j < |AllKeysFor(c)| ::
            At(m', AllKeysFor(c)[j]) == Reserved(Transition(At(m, AllKeysFor(c)[j]), clock(j))))
  {
    var ks := AllKeysFor(c);
    CandidateKeysDistinct(c, Request);
    forall k { AllowAt(m, ks, clock, 0, k); }
    assert forall k | k in ks :: exists j :: 0 <= j < |ks| && ks[j] == k;
    assert forall j | 0 <= j < |ks| :: ks[j] in ks;
  }

  // --- two grants on a half-open key ---

  ghost predicate IsRun(cfg: Config, states: seq<Circuits>, calls: seq<Call>) {
    && |states| == |calls| + 1
    && forall i | 0 <= i < |calls| :: states[i + 1] == Exec(false, cfg, states[i], calls[i]).0
  }

  predicate Touches(call: Call, k: Key) {
    match call
    case AllowKey(j, _) => j == k
    case Allow(c, _) => k in AllKeysFor(c)
    case _ => false
  }

  /** The call hands out the half-open probe of k. */
  predicate GrantsProbe(cfg: Config, m: Circuits, call: Call, k: Key) {
    var (m', a) := Exec(false, cfg, m, call);
    Touches(call, k) && a == Says(true) && At(m', k).status.HalfOpen?
  }

  predicate ResolvingCall(cfg: Config, m: Circuits, call: Call, k: Key) {
    match call
    case Clear(j) => j == k
    case RecordKey(j, o, _, _) => j == k && Resolves(cfg, At(m, k), o)
    case Record(c, o, _, _) => k in RecordKeys(c, o) && Resolves(cfg, At(m, k), RecordOutcome(o))
    case _ => false
  }

  lemma {:induction false} RecordFromAt(cfg: Config, m: Circuits, ks: seq<Key>, o: Outcome, clock: Clock, js: Jitters,
                                        i: nat, k: Key)
    requires Distinct(ks) && i <= |ks|
    ensures var m' := RecordFrom(false, cfg, m, ks, o, clock, js, i);
      && (forall j | i <= j < |ks| && ks[j] == k :: At(m', k) == Recorded(cfg, At(m, k), o, clock(j), js(j)))
      && ((forall j | i <= j < |ks| :: ks[j] != k) ==> At(m', k) == At(m, k))
    decreases |ks| - i
  {
    if i < |ks| {
      var m1 := RecordOne(false, cfg, m, ks[i], o, clock(i), js(i));
      RecordedWhenSynced(cfg, At(m, ks[i]), o, clock(i), js(i));
      RecordFromAt(cfg, m1, ks, o, clock, js, i + 1, k);
      if ks[i] == k {
        assert forall j | 0 <= j < |ks| && ks[j] == k :: j == i;
      }
    }
  }

  /** A probing key stays probing and hands out nothing, through every call that does not resolve it. */
  lemma ProbeOutlivesCall(cfg: Config, m: Circuits, call: Call, k: Key)
    requires Probing(At(m, k))
    ensures !GrantsProbe(cfg, m, call, k)
    ensures !ResolvingCall(cfg, m, call, k) ==> Probing(At(Exec(false, cfg, m, call).0, k))
  {
    match call
    case Allow(c, clock) =>
      CandidateKeysDistinct(c, Request);
      AllowAt(m, AllKeysFor(c), clock, 0, k);
    case Record(c, o, clock, js) =>
      CandidateKeysDistinct(c, o.scope);
      RecordFromAt(cfg, m, RecordKeys(c, o), RecordOutcome(o), clock, js, 0, k);
    case RecordKey(j, o, now, jitter) =>
      RecordedWhenSynced(cfg, At(m, j), o, now, jitter);
    case _ =>
  }

  lemma {:induction false} ProbeOutlivesCalls(cfg: Config, states: seq<Circuits>, calls: seq<Call>, k: Key, i: nat, j: nat)
    requires IsRun(cfg, states, calls) && i <= j <= |calls| && Probing(At(states[i], k))
    requires forall l | i <= l < j :: !ResolvingCall(cfg, states[l], calls[l], k)
    ensures Probing(At(states[j], k))
    decreases j - i
  {
    if i < j {
      ProbeOutlivesCalls(cfg, states, calls, k, i, j - 1);
      ProbeOutlivesCall(cfg, states[j - 1], calls[j - 1], k);
    }
  }

  lemma GrantTakesProbe(cfg: Config, m: Circuits, call: Call, k: Key)
    requires GrantsProbe(cfg, m, call, k)
    ensures Probing(At(Exec(false, cfg, m, call).0, k))
  {
    if call.Allow? {
      CandidateKeysDistinct(call.c, Request);
      AllowAt(m, AllKeysFor(call.c), call.clock, 0, k);
    }
  }

  /** Between two grants of a half-open key's probe, by whatever calls, some Record resolved it or Clear reset it. */
  lemma OneProbeAtATime(cfg: Config, states: seq<Circuits>, calls: seq<Call>, k: Key, i: nat, j: nat)
    requires IsRun(cfg, states, calls) && i < j < |calls|
    requires GrantsProbe(cfg, states[i], calls[i], k) && GrantsProbe(cfg, states[j], calls[j], k)
    ensures exists l :: i < l < j && ResolvingCall(cfg, states[l], calls[l], k)
  {
    GrantTakesProbe(cfg, states[i], calls[i], k);
    if forall l | i + 1 <= l < j :: !ResolvingCall(cfg, states[l], calls[l], k) {
      ProbeOutlivesCalls(cfg, states, calls, k, i + 1, j);
      ProbeOutlivesCall(cfg, states[j], calls[j], k);
    }
  }

  // --- what a run of calls does to one key's standing ---

  function Place(ks: seq<Key>, k: Key): (i: nat)
    ensures i <= |ks| && (i < |ks| ==> ks[i] == k) && forall j | 0 <= j < i :: ks[j] != k
  {
    if ks == [] || ks[0] == k then 0 else 1 + Place(ks[1..], k)
  }

  /** The outcomes recorded on k since it was last cleared: `h` before the call, and with the call. */
  function Noted(h: seq<Moment>, call: Call, k: Key): seq<Moment> {
    match call
    case RecordKey(j, o, now, jitter) => if j == k then h + [Moment(Rec(o, jitter), now)] else h
    case Record(c, o, clock, js) =>
      var i := Place(RecordKeys(c, o), k);
      if i < |RecordKeys(c, o)| then h + [Moment(Rec(RecordOutcome(o), js(i)), clock(i))] else h
    case Clear(j) => if j == k then [] else h
    case _ => h
  }

  function RecordsOf(calls: seq<Call>, k: Key): seq<Moment> {
    if calls == [] then [] else Noted(RecordsOf(calls[..|calls| - 1], k), calls[|calls| - 1], k)
  }

  /** Both out of service for the same reason, or both in service with the same failure count. */
  predicate SameStanding(x: KeyState, y: KeyState) {
    && (x.status.Terminal? <==> y.status.Terminal?)
    && (x.status.Terminal? ==> x.reason == y.reason)
    && (!x.status.Terminal? ==> x.failures == y.failures)
  }

  lemma RecordedStanding(cfg: Config, x: KeyState, y: KeyState, o: Outcome, now: Time, jitter: Duration -> Duration)
    requires SameStanding(x, y)
    ensures SameStanding(Recorded(cfg, x, o, now, jitter), Recorded(cfg, y, o, now, jitter))
  {
  }

  lemma QuietCallKeepsStanding(cfg: Config, m: Circuits, call: Call, k: Key)
    requires !call.Record? && !call.RecordKey? && !call.Clear?
    ensures SameStanding(At(m, k), At(Exec(false, cfg, m, call).0, k))
  {
    if call.Allow? {
      var ks := AllKeysFor(call.c);
      CandidateKeysDistinct(call.c, Request);
      AllowAt(m, ks, call.clock, 0, k);
      if k in ks {
        var j :| 0 <= j < |ks| && ks[j] == k;
      }
    }
  }

  lemma CallKeepsStanding(cfg: Config, m: Circuits, call: Call, k: Key, h: seq<Moment>)
    requires SameStanding(At(m, k), Replay(cfg, FRESH, h))
    ensures SameStanding(At(Exec(false, cfg, m, call).0, k), Replay(cfg, FRESH, Noted(h, call, k)))
  {
    match call
    case RecordKey(j, o, now, jitter) =>
      if j == k {
        RecordedWhenSynced(cfg, At(m, k), o, now, jitter);
        NotedStanding(cfg, At(m, k), h, o, now, jitter);
      }
    case Record(c, o, clock, js) =>
      var ks := RecordKeys(c, o);
      var i := Place(ks, k);
      CandidateKeysDistinct(c, o.scope);
      RecordFromAt(cfg, m, ks, RecordOutcome(o), clock, js, 0, k);
      if i < |ks| { NotedStanding(cfg, At(m, k), h, RecordOutcome(o), clock(i), js(i)); }
    case Clear(_) =>
    case _ => QuietCallKeepsStanding(cfg, m, call, k);
  }

  lemma NotedStanding(cfg: Config, ks: KeyState, h: seq<Moment>, o: Outcome, now: Time, jitter: Duration -> Duration)
    requires SameStanding(ks, Replay(cfg, FRESH, h))
    ensures SameStanding(Recorded(cfg, ks, o, now, jitter), Replay(cfg, FRESH, h + [Moment(Rec(o, jitter), now)]))
  {
    RecordedStanding(cfg, ks, Replay(cfg, FRESH, h), o, now, jitter);
    AppendRecord(cfg, h, Moment(Rec(o, jitter), now));
  }

  lemma AppendRecord(cfg: Config, h: seq<Moment>, m: Moment)
    ensures Replay(cfg, FRESH, h + [m]) == Act(cfg, Replay(cfg, FRESH, h), m)
  {
    assert (h + [m])[..|h|] == h;
  }

  lemma {:induction false} RunKeepsStanding(cfg: Config, states: seq<Circuits>, calls: seq<Call>, k: Key, n: nat)
    requires IsRun(cfg, states, calls) && states[0] == map[] && n <= |calls|
    ensures SameStanding(At(states[n], k), Replay(cfg, FRESH, RecordsOf(calls[..n], k)))
  {
    if n > 0 {
      RunKeepsStanding(cfg, states, calls, k, n - 1);
      assert calls[..n][..n - 1] == calls[..n - 1];
      CallKeepsStanding(cfg, states[n - 1], calls[n - 1], k, RecordsOf(calls[..n - 1], k));
    }
  }

  /** Out of service exactly when the outcomes condemned it, for the reason of the first that did. */
  ghost predicate StandsBy(cfg: Config, ks: KeyState, h: seq<Moment>) {
    && (ks.status.Terminal? <==> exists i :: 0 <= i < |h| && Condemns(cfg, h, i))
    && (forall i | 0 <= i < |h| && Condemns(cfg, h, i) && (forall j | 0 <= j < i :: !Condemns(cfg, h, j)) ::
          ks.reason == ReasonOf(h[i].action.o))
  }

  lemma StandingFollows(cfg: Config, ks: KeyState, h: seq<Moment>)
    requires SameStanding(ks, Replay(cfg, FRESH, h))
    ensures StandsBy(cfg, ks, h)
  {
    TerminalIffCondemned(cfg, h);
    forall i | 0 <= i < |h| && Condemns(cfg, h, i) && (forall j | 0 <= j < i :: !Condemns(cfg, h, j))
      ensures ks.reason == ReasonOf(h[i].action.o)
    {
      CondemnedForGood(cfg, h, i);
    }
  }

  /** In every run of calls from a new breaker, whatever else is asked and whatever the clock reads, a key is terminal
      exactly when some outcome recorded on it since its last Clear condemned it, with the reason of the first. */
  lemma KeyTerminalIffCondemned(cfg: Config, states: seq<Circuits>, calls: seq<Call>, k: Key)
    requires IsRun(cfg, states, calls) && states[0] == map[]
    ensures StandsBy(cfg, At(states[|calls|], k), RecordsOf(calls, k))
  {
    assert calls[..|calls|] == calls;
    RunKeepsStanding(cfg, states, calls, k, |calls|);
    StandingFollows(cfg, At(states[|calls|], k), RecordsOf(calls, k));
  }

  // --- lazy and eager ---

  /** The clock readings of a call, none before t, never going back. */
  ghost predicate Ordered(call: Call, t: Time) {
    match call
    case StateOf(_, now) => t <= now
    case AllowKey(_, now) => t <= now
    case RecordKey(_, _, now, _) => t <= now
    case Clear(_) => true
    case Allow(_, clock) => Monotone(clock, t)
    case Record(_, _, clock, _) => Monotone(clock, t)
    case Tick(now) => t <= now
  }

  ghost predicate Monotone(clock: Clock, t: Time) {
    t <= clock(0) && forall i: nat, j: nat :: i <= j ==> clock(i) <= clock(j)
  }

  /** No key is touched after this reading of the call. */
  function End(call: Call, t: Time): Time {
    match call
    case StateOf(_, now) => now
    case AllowKey(_, now) => now
    case RecordKey(_, _, now, _) => now
    case Clear(_) => t
    case Allow(_, clock) => clock(2)
    case Record(_, _, clock, _) => clock(2)
    case Tick(now) => now
  }

  predicate AgreeOn(l: Circuits, e: Circuits, k: Key, t: Time) { Transition(At(l, k), t) == Transition(At(e, k), t) }

  /** Seen at time t, both automata look the same. */
  ghost predicate Agree(l: Circuits, e: Circuits, t: Time) { forall k :: AgreeOn(l, e, k, t) }

  /** The eager automaton never shows an expired cooldown. */
  lemma TickHalfOpensAtOnce(m: Circuits, now: Time)
    ensures forall k :: !(At(TickAll(m, now), k).status.Open? && At(TickAll(m, now), k).openUntil <= now)
  {
  }

  lemma TransitionLater(ks: KeyState, t: Time, u: Time)
    requires t <= u
    ensures Transition(Transition(ks, t), u) == Transition(ks, u)
  {
  }

  lemma AgreeLater(l: Circuits, e: Circuits, t: Time, u: Time)
    requires Agree(l, e, t) && t <= u
    ensures Agree(l, e, u)
  {
    forall k ensures AgreeOn(l, e, k, u) {
      assert AgreeOn(l, e, k, t);
      TransitionLater(At(l, k), t, u);
      TransitionLater(At(e, k), t, u);
    }
  }

  lemma TickAgrees(l: Circuits, e: Circuits, t: Time)
    requires Agree(l, e, t)
    ensures Agree(l, TickAll(e, t), t)
  {
    forall k ensures AgreeOn(l, TickAll(e, t), k, t) {
      assert AgreeOn(l, e, k, t);
      TransitionLater(At(e, k), t, t);
    }
  }

  lemma UpdateAgrees(l: Circuits, e: Circuits, k: Key, x: KeyState, y: KeyState, t: Time)
    requires Agree(l, e, t) && Transition(x, t) == Transition(y, t)
    ensures Agree(l[k := x], e[k := y], t)
  {
    var l', e' := l[k := x], e[k := y];
    forall j: Key ensures AgreeOn(l', e', j, t) {
      assert j != k ==> AgreeOn(l, e, j, t);
    }
  }

  /** After reading the clock for k both know the same state of k. */
  lemma SyncAgrees(l: Circuits, e: Circuits, k: Key, t: Time)
    requires Agree(l, e, t)
    ensures Agree(Sync(false, l, k, t), Sync(true, e, k, t), t)
    ensures Sync(false, l, k, t)[k] == Sync(true, e, k, t)[k]
  {
    TickAgrees(l, e, t);
    assert AgreeOn(l, e, k, t);
    UpdateAgrees(l, TickAll(e, t), k, Transition(At(l, k), t), Transition(At(e, k), t), t);
  }

  lemma RecordOneAgrees(cfg: Config, l: Circuits, e: Circuits, k: Key, o: Outcome, t: Time, jitter: Duration -> Duration)
    requires Agree(l, e, t)
    ensures Agree(RecordOne(false, cfg, l, k, o, t, jitter), RecordOne(true, cfg, e, k, o, t, jitter), t)
  {
    SyncAgrees(l, e, k, t);
    var ls, es := Sync(false, l, k, t), Sync(true, e, k, t);
    var r := Recorded(cfg, ls[k], o, t, jitter);
    UpdateAgrees(ls, es, k, r, r, t);
  }

  lemma {:induction false} RecordFromAgrees(cfg: Config, l: Circuits, e: Circuits, ks: seq<Key>, o: Outcome, clock: Clock,
                                            js: Jitters, i: nat, t: Time)
    requires i <= |ks| <= 3 && Monotone(clock, clock(0)) && (i < |ks| ==> t <= clock(i)) && t <= clock(2)
    requires Agree(l, e, t)
    ensures Agree(RecordFrom(false, cfg, l, ks, o, clock, js, i), RecordFrom(true, cfg, e, ks, o, clock, js, i), clock(2))
    decreases |ks| - i
  {
    if i == |ks| {
      AgreeLater(l, e, t, clock(2));
    } else {
      AgreeLater(l, e, t, clock(i));
      RecordOneAgrees(cfg, l, e, ks[i], o, clock(i), js(i));
      assert clock(i) <= clock(i + 1) && clock(i) <= clock(2);
      RecordFromAgrees(cfg, RecordOne(false, cfg, l, ks[i], o, clock(i), js(i)),
                       RecordOne(true, cfg, e, ks[i], o, clock(i), js(i)), ks, o, clock, js, i + 1, clock(i));
    }
  }

  lemma ReleaseCommutes(ks: KeyState, t: Time)
    ensures Transition(Released(ks), t) == Released(Transition(ks, t))
  {
  }

  lemma {:induction false} ReleaseFromAgrees(l: Circuits, e: Circuits, ks: seq<Key>, j: nat, n: nat, t: Time)
    requires n <= |ks| && Agree(l, e, t)
    ensures Agree(ReleaseFrom(l, ks, j, n), ReleaseFrom(e, ks, j, n), t)
    decreases n - j
  {
    if j < n {
      var x, y := At(l, ks[j]), At(e, ks[j]);
      assert AgreeOn(l, e, ks[j], t);
      ReleaseCommutes(x, t);
      ReleaseCommutes(y, t);
      UpdateAgrees(l, e, ks[j], Released(x), Released(y), t);
      ReleaseFromAgrees(l[ks[j] := Released(x)], e[ks[j] := Released(y)], ks, j + 1, n, t);
    }
  }

  lemma {:induction false} AllowFromAgrees(l: Circuits, e: Circuits, ks: seq<Key>, clock: Clock, i: nat, t: Time)
    requires i <= |ks| <= 3 && Monotone(clock, clock(0)) && (i < |ks| ==> t <= clock(i)) && t <= clock(2)
    requires Agree(l, e, t)
    ensures var (l', a), (e', b) := AllowFrom(false, l, ks, clock, i), AllowFrom(true, e, ks, clock, i);
      a == b && Agree(l', e', clock(2))
    decreases |ks| - i
  {
    if i == |ks| {
      AgreeLater(l, e, t, clock(2));
    } else {
      var now := clock(i);
      assert now <= clock(i + 1) && now <= clock(2);
      AgreeLater(l, e, t, now);
      SyncAgrees(l, e, ks[i], now);
      var ls, es := Sync(false, l, ks[i], now), Sync(true, e, ks[i], now);
      if Admits(ls[ks[i]]) {
        var r := Reserved(ls[ks[i]]);
        UpdateAgrees(ls, es, ks[i], r, r, now);
        AllowFromAgrees(ls[ks[i] := r], es[ks[i] := r], ks, clock, i + 1, now);
      } else {
        ReleaseFromAgrees(ls, es, ks, 0, i, now);
        AgreeLater(ReleaseFrom(ls, ks, 0, i), ReleaseFrom(es, ks, 0, i), now, clock(2));
      }
    }
  }

  lemma CallAgrees(cfg: Config, l: Circuits, e: Circuits, call: Call, t: Time)
    requires Agree(l, e, t) && Ordered(call, t)
    ensures Exec(false, cfg, l, call).1 == Exec(true, cfg, e, call).1
    ensures Agree(Exec(false, cfg, l, call).0, Exec(true, cfg, e, call).0, End(call, t)) && t <= End(call, t)
  {
    if !call.Clear? && !call.Allow? && !call.Record? {
      AgreeLater(l, e, t, call.now);
    }
    match call
    case StateOf(k, now) => SyncAgrees(l, e, k, now);
    case AllowKey(k, now) =>
      SyncAgrees(l, e, k, now);
      var ls, es := Sync(false, l, k, now), Sync(true, e, k, now);
      UpdateAgrees(ls, es, k, Reserved(ls[k]), Reserved(ls[k]), now);
    case RecordKey(k, o, now, jitter) => RecordOneAgrees(cfg, l, e, k, o, now, jitter);
    case Clear(k) => UpdateAgrees(l, e, k, FRESH, FRESH, t);
    case Allow(c, clock) =>
      assert clock(0) <= clock(2);
      CandidateKeysDistinct(c, Request);
      AllowFromAgrees(l, e, AllKeysFor(c), clock, 0, t);
    case Record(c, o, clock, js) =>
      assert clock(0) <= clock(2);
      CandidateKeysDistinct(c, o.scope);
      RecordFromAgrees(cfg, l, e, RecordKeys(c, o), RecordOutcome(o), clock, js, 0, t);
    case Tick(now) => TickAgrees(l, e, now);
  }

  function ExecAll(eager: bool, cfg: Config, m: Circuits, calls: seq<Call>): (Circuits, seq<Answer>)
    decreases |calls|
  {
    if calls == [] then (m, [])
    else
      var (m1, a) := Exec(eager, cfg, m, calls[0]);
      var (m2, rest) := ExecAll(eager, cfg, m1, calls[1..]);
      (m2, [a] + rest)
  }

  ghost predicate OrderedFrom(calls: seq<Call>, t: Time)
    decreases |calls|
  {
    calls == [] || (Ordered(calls[0], t) && OrderedFrom(calls[1..], End(calls[0], t)))
  }

  /** While the clock never goes back, every call is answered as by an automaton that half-opens each circuit on its
      own, at whatever instants the eager one is made to look at its clock in between. */
  lemma {:induction false} LazyMatchesEager(cfg: Config, l: Circuits, e: Circuits, calls: seq<Call>, t: Time)
    requires Agree(l, e, t) && OrderedFrom(calls, t)
    ensures ExecAll(false, cfg, l, calls).1 == ExecAll(true, cfg, e, calls).1
    decreases |calls|
  {
    if calls != [] {
      CallAgrees(cfg, l, e, calls[0], t);
      LazyMatchesEager(cfg, Exec(false, cfg, l, calls[0]).0, Exec(true, cfg, e, calls[0]).0, calls[1..], End(calls[0], t));
    }
  }

  /** With a clock that goes back from t to u the two part, on any circuit whose cooldown ends in between: the eager
      automaton has already half-opened it. */
  lemma BackwardClockParts(cfg: Config, k: Key, until: Time, t: Time, u: Time)
    requires u < until <= t
    ensures var m := map[k := KeyState(Open, 1, until, "", false)];
      var calls := [Tick(t), StateOf(k, u)];
      && Agree(m, m, t) && !OrderedFrom(calls, t)
      && ExecAll(false, cfg, m, calls).1 != ExecAll(true, cfg, m, calls).1
  {
    var m := map[k := KeyState(Open, 1, until, "", false)];
    var calls := [Tick(t), StateOf(k, u)];
    assert calls[1..] == [StateOf(k, u)];
    assert Exec(false, cfg, m, calls[0]).0 == m;
    assert ExecAll(false, cfg, m, calls[1..]).1[0] == Shows(Open);
    assert ExecAll(true, cfg, TickAll(m, t), calls[1..]).1[0] == Shows(HalfOpen);
    assert ExecAll(false, cfg, m, calls).1[1] == Shows(Open);
    assert ExecAll(true, cfg, m, calls).1[1] == Shows(HalfOpen);
  }
}
