/** What the breaker answers: which keys an outcome reaches and what each of them shows and admits afterwards, over
    runs of calls from a new breaker (internal/breaker/breaker.go). */
module BreakerAnswers {
  import opened BreakerCircuit
  import opened Breaker
  import opened BreakerRuns

  // --- the keys of a candidate ---

  /** k is the candidate's provider key, its model key if it names a model, or its credential key if it names one. */
  predicate IsKeyOf(c: Candidate, k: Key) {
    && k.provider == c.provider
    && match k.level
       case ProviderLevel => k.credential == "" && k.model == ""
       case ModelLevel => k.credential == "" && k.model == c.model != ""
       case CredentialLevel => k.model == "" && k.credential == c.credential != ""
  }

  /** The outcome of an attempt with c is recorded on k: a success on every key of c, a credential failure on its
      credential, a provider failure on its provider and model. */
  predicate Concerns(c: Candidate, o: Outcome, k: Key) {
    && IsKeyOf(c, k)
    && (o.success || if k.level.CredentialLevel? then o.scope.Credential? else o.scope.Provider?)
  }

  lemma CandidateKeys(c: Candidate, o: Outcome, k: Key)
    ensures k in AllKeysFor(c) <==> IsKeyOf(c, k)
    ensures k in RecordKeys(c, o) <==> Concerns(c, o, k)
  {
    var all := AllKeysFor(c);
    if IsKeyOf(c, k) { assert k == KeyFor(c, k.level); }
    assert k in all <==> k == KeyFor(c, ProviderLevel) || (c.model != "" && k == KeyFor(c, ModelLevel))
                         || (c.credential != "" && k == KeyFor(c, CredentialLevel));
  }

  /** The call puts outcome o on k at that instant, with that jitter. */
  ghost predicate Brings(call: Call, k: Key, o: Outcome, now: Time, jitter: Duration -> Duration) {
    match call
    case RecordKey(j, p, t, f) => j == k && o == p && now == t && jitter == f
    case Record(c, p, clock, js) =>
      && Concerns(c, p, k) && o.success == p.success && (!p.success ==> o == p)
      && exists i: nat :: i < 3 && now == clock(i) && jitter == js(i)
    case _ => false
  }

  /** The history of a key is what the run brought to it since its last Clear, in order. */
  lemma HistoryGrowsIff(calls: seq<Call>, k: Key)
    requires calls != []
    ensures var h, h', call := RecordsOf(calls[..|calls| - 1], k), RecordsOf(calls, k), calls[|calls| - 1];
      || (call == Clear(k) && h' == [])
      || (h' == h && call != Clear(k)
          && forall o: Outcome, now: Time, jitter: Duration -> Duration :: !Brings(call, k, o, now, jitter))
      || (exists o: Outcome, now: Time, jitter: Duration -> Duration ::
            Brings(call, k, o, now, jitter) && h' == h + [Moment(Rec(o, jitter), now)])
  {
    var call := calls[|calls| - 1];
    match call
    case RecordKey(j, o, now, jitter) =>
      assert j == k ==> Brings(call, k, o, now, jitter);
    case Record(c, o, clock, js) =>
      var ks := RecordKeys(c, o);
      var i := Place(ks, k);
      CandidateKeys(c, o, k);
      CandidateKeysDistinct(c, o.scope);
      if i < |ks| {
        assert k in ks && i < 3;
        assert Brings(call, k, RecordOutcome(o), clock(i), js(i));
      }
    case _ =>
  }

  // --- what an outcome says ---

  /** A reason takes the key out of service at once. */
  predicate Final(o: Outcome) { !o.success && !o.scope.Request? && o.reason != "" }

  /** A non-retryable credential failure counts toward the ban and opens nothing. */
  predicate Strike(o: Outcome) { !o.success && o.scope.Credential? && !o.retryable && o.reason == "" }

  /** A failure that opens a cooldown. */
  predicate Outage(o: Outcome) {
    !o.success && !o.scope.Request? && o.reason == "" && (o.retryable || o.scope.Unknown?)
  }

  /** Strikes and outages of a stretch of outcomes. */
  function Tally(h: seq<Moment>): nat {
    if h == [] then 0
    else
      var a := h[|h| - 1].action;
      Tally(h[..|h| - 1]) + if a.Rec? && (Strike(a.o) || Outage(a.o)) then 1 else 0
  }

  /** h[start..] is what was recorded since the last success. */
  predicate SinceSuccess(h: seq<Moment>, start: nat) {
    && start <= |h| && (forall i | 0 <= i < |h| :: h[i].action.Rec?)
    && (forall i | start <= i < |h| :: !h[i].action.o.success)
    && (start > 0 ==> h[start - 1].action.o.success)
  }

  lemma {:induction false} StreakIsTally(h: seq<Moment>, start: nat)
    requires SinceSuccess(h, start)
    ensures Streak(h) == Tally(h[start..])
  {
    if start < |h| {
      var p := h[..|h| - 1];
      StreakIsTally(p, start);
      assert h[start..][..|h[start..]| - 1] == p[start..];
    }
  }

  lemma {:induction false} HistoryIsRecords(calls: seq<Call>, k: Key)
    ensures forall i | 0 <= i < |RecordsOf(calls, k)| :: RecordsOf(calls, k)[i].action.Rec?
  {
    if calls != [] { HistoryIsRecords(calls[..|calls| - 1], k); }
  }

  lemma {:induction false} LastSuccess(h: seq<Moment>) returns (start: nat)
    requires forall i | 0 <= i < |h| :: h[i].action.Rec?
    ensures SinceSuccess(h, start)
  {
    start := |h|;
    if h != [] && !h[|h| - 1].action.o.success {
      start := LastSuccess(h[..|h| - 1]);
    }
  }

  /** Where the outcomes since the last success of k start, and how many of them counted. */
  lemma RunStreak(calls: seq<Call>, k: Key) returns (start: nat)
    ensures SinceSuccess(RecordsOf(calls, k), start)
    ensures Streak(RecordsOf(calls, k)) == Tally(RecordsOf(calls, k)[start..])
  {
    HistoryIsRecords(calls, k);
    start := LastSuccess(RecordsOf(calls, k));
    StreakIsTally(RecordsOf(calls, k), start);
  }

  // --- after one more outcome ---

  /** The run's last call brings an outcome to k: `h` is what had been recorded before. */
  ghost predicate EndsWith(cfg: Config, states: seq<Circuits>, calls: seq<Call>, k: Key,
                           h: seq<Moment>, o: Outcome, now: Time, jitter: Duration -> Duration)
  {
    && IsRun(cfg, states, calls) && states[0] == map[] && calls != []
    && h == RecordsOf(calls[..|calls| - 1], k)
    && RecordsOf(calls, k) == h + [Moment(Rec(o, jitter), now)]
  }

  /** What k shows at t. */
  function Shown(cfg: Config, m: Circuits, k: Key, t: Time): Answer { Exec(false, cfg, m, StateOf(k, t)).1 }

  function Asked(cfg: Config, m: Circuits, k: Key, t: Time): Answer { Exec(false, cfg, m, AllowKey(k, t)).1 }

  lemma LastRecord(cfg: Config, states: seq<Circuits>, calls: seq<Call>, k: Key,
                   h: seq<Moment>, o: Outcome, now: Time, jitter: Duration -> Duration)
    requires EndsWith(cfg, states, calls, k, h, o, now, jitter)
    ensures var before := At(states[|calls| - 1], k);
      && At(states[|calls|], k) == Recorded(cfg, before, o, now, jitter)
      && (!before.status.Terminal? ==> before.failures == Streak(h))
  {
    var n := |calls| - 1;
    RunKeepsStanding(cfg, states, calls, k, n);
    if forall i | 0 <= i < |h| :: !Condemns(cfg, h, i) {
      InServiceUntilCondemned(cfg, h);
    } else {
      TerminalIffCondemned(cfg, h);
    }
    assert RecordsOf(calls, k)[|h|] == Moment(Rec(o, jitter), now);
    match calls[n]
    case RecordKey(j, p, t, f) => RecordedWhenSynced(cfg, At(states[n], j), p, t, f);
    case Record(c, p, clock, js) =>
      CandidateKeysDistinct(c, p.scope);
      RecordFromAt(cfg, states[n], RecordKeys(c, p), RecordOutcome(p), clock, js, 0, k);
    case _ =>
  }

  /** The wait an outage asks for as the f-th failure in a row: its own hint, or the jittered backoff. */
  function Wait(cfg: Config, o: Outcome, f: nat, jitter: Duration -> Duration): Duration
    requires f >= 1
  {
    if o.retryAfter > 0 then o.retryAfter else jitter(Cooldown(cfg, f))
  }

  /** An outage on a key that is in service and not open: from then on the key shows open, and refuses, exactly until
      the wait is over, where f counts the failures since the last success with this one; then it shows half-open and
      admits one caller. */
  lemma OutageOpensUntil(cfg: Config, states: seq<Circuits>, calls: seq<Call>, k: Key, h: seq<Moment>,
                         o: Outcome, now: Time, jitter: Duration -> Duration, t: Time)
    returns (start: nat)
    requires EndsWith(cfg, states, calls, k, h, o, now, jitter) && Outage(o)
    requires Shown(cfg, states[|calls| - 1], k, now) in {Shows(Closed), Shows(HalfOpen)}
    ensures SinceSuccess(h, start)
    ensures var m, end := states[|calls|], now + Wait(cfg, o, Tally(h[start..]) + 1, jitter);
      && Shown(cfg, m, k, t) == Shows(if t < end then Open else HalfOpen)
      && Asked(cfg, m, k, t) == Says(t >= end)
      && (t >= end ==> forall u :: Asked(cfg, Exec(false, cfg, m, AllowKey(k, t)).0, k, u) == Says(false))
  {
    LastRecord(cfg, states, calls, k, h, o, now, jitter);
    start := RunStreak(calls[..|calls| - 1], k);
  }

  /** For a base under 2^33 ns (about 8.6 s) the wait of an outage without a hint is the documented backoff. */
  lemma WaitIsBackoff(cfg: Config, o: Outcome, f: nat, jitter: Duration -> Duration)
    requires f >= 1 && 0 < cfg.base < TWO_33 && 0 < cfg.max < TWO_63
    ensures Wait(cfg, o, f, jitter)
         == if o.retryAfter > 0 then o.retryAfter else jitter(Min(cfg.base * Pow2(Min(f - 1, 30)), cfg.max))
  {
    SmallBaseExact(cfg, f);
  }

  /** Between two states of the breaker nothing changed that k shows or admits. */
  ghost predicate AnswersAlike(cfg: Config, m: Circuits, m': Circuits, k: Key) {
    forall t :: Shown(cfg, m, k, t) == Shown(cfg, m', k, t) && Asked(cfg, m, k, t) == Asked(cfg, m', k, t)
  }

  /** An outage on a key that is still open does not move the end of the cooldown. */
  lemma OutageKeepsEnd(cfg: Config, states: seq<Circuits>, calls: seq<Call>, k: Key, h: seq<Moment>,
                       o: Outcome, now: Time, jitter: Duration -> Duration)
    requires EndsWith(cfg, states, calls, k, h, o, now, jitter) && Outage(o)
    requires Shown(cfg, states[|calls| - 1], k, now) == Shows(Open)
    ensures AnswersAlike(cfg, states[|calls| - 1], states[|calls|], k)
  {
    LastRecord(cfg, states, calls, k, h, o, now, jitter);
  }

  /** A strike takes the key out of service exactly when it is at least the N-th failure since the last success;
      short of that the key answers as if it had only been looked at. */
  lemma StrikeBansIff(cfg: Config, states: seq<Circuits>, calls: seq<Call>, k: Key, h: seq<Moment>,
                      o: Outcome, now: Time, jitter: Duration -> Duration)
    returns (start: nat)
    requires EndsWith(cfg, states, calls, k, h, o, now, jitter) && Strike(o)
    requires Shown(cfg, states[|calls| - 1], k, now) != Shows(Terminal)
    ensures SinceSuccess(h, start)
    ensures var m, m' := Exec(false, cfg, states[|calls| - 1], StateOf(k, now)).0, states[|calls|];
      if Tally(h[start..]) + 1 >= cfg.threshold then forall t :: Shown(cfg, m', k, t) == Shows(Terminal)
      else AnswersAlike(cfg, m, m', k)
  {
    LastRecord(cfg, states, calls, k, h, o, now, jitter);
    start := RunStreak(calls[..|calls| - 1], k);
  }

  /** An outcome with a reason takes the key out of service, whatever its state was. */
  lemma FinalCondemns(cfg: Config, states: seq<Circuits>, calls: seq<Call>, k: Key, h: seq<Moment>,
                      o: Outcome, now: Time, jitter: Duration -> Duration, t: Time)
    requires EndsWith(cfg, states, calls, k, h, o, now, jitter) && Final(o)
    ensures Shown(cfg, states[|calls|], k, t) == Shows(Terminal) && Asked(cfg, states[|calls|], k, t) == Says(false)
  {
    LastRecord(cfg, states, calls, k, h, o, now, jitter);
  }

  /** A failure of the request, or one of the provider that would only repeat, leaves the key as a look would. */
  lemma IgnoredIsALook(cfg: Config, states: seq<Circuits>, calls: seq<Call>, k: Key, h: seq<Moment>,
                       o: Outcome, now: Time, jitter: Duration -> Duration)
    requires EndsWith(cfg, states, calls, k, h, o, now, jitter)
    requires !o.success && !Final(o) && !Strike(o) && !Outage(o)
    ensures o.scope.Request? || (o.scope.Provider? && !o.retryable)
    ensures At(states[|calls|], k) == At(Exec(false, cfg, states[|calls| - 1], StateOf(k, now)).0, k)
  {
    LastRecord(cfg, states, calls, k, h, o, now, jitter);
  }

  // --- closed keys ---

  /** Nothing recorded since the last Clear, or a success last. */
  predicate Clean(h: seq<Moment>) { h == [] || (h[|h| - 1].action.Rec? && h[|h| - 1].action.o.success) }

  lemma QuietCallKeepsClosed(cfg: Config, m: Circuits, call: Call, k: Key)
    requires At(m, k).status.Closed? && !call.Record? && !call.RecordKey?
    ensures At(Exec(false, cfg, m, call).0, k).status.Closed?
  {
    if call.Allow? {
      var ks := AllKeysFor(call.c);
      CandidateKeysDistinct(call.c, Request);
      AllowAt(m, ks, call.clock, 0, k);
      if k in ks {
        var j :| 0 <= j < |ks| && ks[j] == k;
      }
    }
  }

  lemma {:induction false} CleanIsClosed(cfg: Config, states: seq<Circuits>, calls: seq<Call>, k: Key)
    requires IsRun(cfg, states, calls) && states[0] == map[] && Clean(RecordsOf(calls, k))
    requires forall i | 0 <= i < |RecordsOf(calls, k)| :: !Condemns(cfg, RecordsOf(calls, k), i)
    ensures At(states[|calls|], k).status.Closed?
    decreases |calls|
  {
    if calls != [] {
      var n := |calls| - 1;
      var h := RecordsOf(calls[..n], k);
      if h == RecordsOf(calls, k) && calls[n] != Clear(k) {
        CleanIsClosed(cfg, states[..n + 1], calls[..n], k);
        QuietRecord(cfg, states, calls, k);
      } else if calls[n] != Clear(k) {
        HistoryGrowsIff(calls, k);
        var mo := RecordsOf(calls, k)[|h|];
        LastRecord(cfg, states, calls, k, h, mo.action.o, mo.now, mo.action.jitter);
        KeyTerminalIffCondemned(cfg, states, calls, k);
      }
    }
  }

  /** A call that brings nothing to a closed key leaves it closed. */
  lemma QuietRecord(cfg: Config, states: seq<Circuits>, calls: seq<Call>, k: Key)
    requires IsRun(cfg, states, calls) && calls != []
    requires RecordsOf(calls, k) == RecordsOf(calls[..|calls| - 1], k) && At(states[|calls| - 1], k).status.Closed?
    ensures At(states[|calls|], k).status.Closed?
  {
    var n := |calls| - 1;
    match calls[n]
    case RecordKey(_, _, _, _) =>
    case Record(c, p, clock, js) =>
      CandidateKeysDistinct(c, p.scope);
      RecordFromAt(cfg, states[n], RecordKeys(c, p), RecordOutcome(p), clock, js, 0, k);
    case _ => QuietCallKeepsClosed(cfg, states[n], calls[n], k);
  }

  /** A key on which nothing was recorded since its last Clear, or a success last, and which nothing took out of
      service, shows closed and admits everybody at any time. */
  lemma CleanKeyAdmits(cfg: Config, states: seq<Circuits>, calls: seq<Call>, k: Key, t: Time)
    requires IsRun(cfg, states, calls) && states[0] == map[] && Clean(RecordsOf(calls, k))
    requires Shown(cfg, states[|calls|], k, t) != Shows(Terminal)
    ensures Shown(cfg, states[|calls|], k, t) == Shows(Closed)
    ensures Asked(cfg, states[|calls|], k, t) == Says(true)
  {
    KeyTerminalIffCondemned(cfg, states, calls, k);
    CleanIsClosed(cfg, states, calls, k);
  }

  // --- a whole candidate ---

  /** Allow grants exactly when each key of the candidate, asked alone at its own reading of the clock, would. */
  lemma AllowIffEachKeyWould(cfg: Config, m: Circuits, c: Candidate, clock: Clock)
    ensures Exec(false, cfg, m, Allow(c, clock)).1
         == Says(forall j | 0 <= j < |AllKeysFor(c)| :: Asked(cfg, m, AllKeysFor(c)[j], clock(j)) == Says(true))
  {
    AllowAllOrNothing(cfg, m, c, clock);
  }
}
