/** One circuit of the breaker (internal/breaker/breaker.go): lazy cooldown, the single half-open probe, absorbing
    terminal states and the exponential backoff in 64-bit arithmetic. */
module BreakerCircuit {

  /** Nanoseconds; `ZERO_TIME` stands for the zero time.Time, read only while a circuit is not open. */
  type Time = int
  type Duration = int
  const ZERO_TIME: Time := 0

  datatype Status = Closed | Open | HalfOpen | Terminal

  datatype Scope = Request | Credential | Provider | Unknown

  datatype Outcome = Outcome(success: bool, scope: Scope, retryable: bool, retryAfter: Duration, reason: string)

  const SUCCESS := Outcome(true, Request, false, 0, "")
  const BANNED := "banned"

  /** `jitter` is an argument of each record, since the default one draws a random factor. */
  datatype Config = Config(base: Duration, max: Duration, threshold: int)

  datatype KeyState = KeyState(status: Status, failures: nat, openUntil: Time, reason: string, probe: bool)

  const FRESH := KeyState(Closed, 0, ZERO_TIME, "", false)

  // --- what each operation does to the state ---

  function Transition(ks: KeyState, now: Time): KeyState {
    if ks.status.Open? && ks.openUntil <= now then ks.(status := HalfOpen, probe := false) else ks
  }

  predicate Admits(ks: KeyState) { ks.status.Closed? || (ks.status.HalfOpen? && !ks.probe) }

  function Reserved(ks: KeyState): KeyState {
    if ks.status.HalfOpen? then ks.(probe := true) else ks
  }

  function Released(ks: KeyState): KeyState {
    if ks.status.HalfOpen? then ks.(probe := false) else ks
  }

  function Condemned(ks: KeyState, reason: string): KeyState {
    ks.(status := Terminal, reason := reason, openUntil := ZERO_TIME, probe := false)
  }

  /** A failure that raises the consecutive-failure counter. */
  predicate Counts(o: Outcome) {
    !o.success && !o.scope.Request? && o.reason == "" && (o.scope.Provider? ==> o.retryable)
  }

  predicate Fatal(o: Outcome) { !o.success && !o.scope.Request? && o.reason != "" }

  function Recorded(cfg: Config, before: KeyState, o: Outcome, now: Time, jitter: Duration -> Duration): KeyState {
    var ks := Transition(before, now);
    if ks.status.Terminal? then ks
    else if o.success then ks.(status := Closed, failures := 0, openUntil := ZERO_TIME, probe := false)
    else if Fatal(o) then Condemned(ks, o.reason)
    else if !Counts(o) then ks
    else
      var f := ks.failures + 1;
      if o.scope.Credential? && !o.retryable then
        if f >= cfg.threshold then Condemned(ks.(failures := f), BANNED) else ks.(failures := f)
      else if ks.status.Open? then ks.(failures := f, probe := false)
      else
        ks.(status := Open, failures := f, probe := false,
            openUntil := now + if o.retryAfter > 0 then o.retryAfter else jitter(Cooldown(cfg, f)))
  }

  // --- 64-bit backoff ---

  const MAX_SHIFT := 30
  const TWO_33 := 0x2_0000_0000
  const TWO_63 := 0x8000_0000_0000_0000
  const TWO_64 := 0x1_0000_0000_0000_0000

  function Pow2(n: nat): (p: int)
    ensures p > 0
  {
    if n == 0 then 1 else 2 * Pow2(n - 1)
  }

  /** The int64 value of an integer. */
  function Wrap64(x: int): int { (x + TWO_63) % TWO_64 - TWO_63 }

  function Min(a: int, b: int): int { if a <= b then a else b }

  /** The cooldown before jitter, for the f-th consecutive failure. */
  function Cooldown(cfg: Config, f: nat): Duration
    requires f >= 1
  {
    var d := Wrap64(cfg.base * Pow2(Min(f - 1, MAX_SHIFT)));
    if d <= 0 || d > cfg.max then cfg.max else d
  }

  // --- the circuit object ---

  class Circuit {
    var status: Status
    var failures: nat
    var openUntil: Time
    var reason: string
    var probe: bool

    function View(): KeyState
      reads this
    {
      KeyState(status, failures, openUntil, reason, probe)
    }

    constructor ()
      ensures View() == FRESH
    {
      status, failures, openUntil, reason, probe := Closed, 0, ZERO_TIME, "", false;
    }

    method TransitionLocked(now: Time)
      modifies this
      ensures View() == Transition(old(View()), now)
    {
      if status == Open && openUntil <= now {
        status := HalfOpen;
        probe := false;
      }
    }

    method ReserveLocked() returns (ok: bool)
      modifies this
      ensures ok == Admits(old(View()))
      ensures View() == if ok then Reserved(old(View())) else old(View())
    {
      match status
      case Closed => return true;
      case HalfOpen =>
        if probe { return false; }
        probe := true;
        return true;
      case _ => return false;
    }

    method ReleaseProbe()
      modifies this
      ensures View() == Released(old(View()))
    {
      if status == HalfOpen {
        probe := false;
      }
    }

    method Record(cfg: Config, o: Outcome, now: Time, jitter: Duration -> Duration)
      modifies this
      ensures View() == Recorded(cfg, old(View()), o, now, jitter)
    {
      TransitionLocked(now);
      if status == Terminal {
        return;
      }
      if o.success {
        status, failures, openUntil, probe := Closed, 0, ZERO_TIME, false;
        return;
      }
      if o.scope == Request {
        return;
      }
      if o.reason != "" {
        status, reason, openUntil, probe := Terminal, o.reason, ZERO_TIME, false;
        return;
      }
      if o.scope == Provider && !o.retryable {
        return;
      }
      failures := failures + 1;
      if o.scope == Credential && !o.retryable {
        if failures >= cfg.threshold {
          status, reason, openUntil, probe := Terminal, BANNED, ZERO_TIME, false;
        }
        return;
      }
      var cooldown: Duration;
      if o.retryAfter > 0 {
        cooldown := o.retryAfter;
      } else {
        cooldown := jitter(Cooldown(cfg, failures));
      }
      if status == Open && openUntil > now {
        probe := false;
        return;
      }
      status, openUntil, probe := Open, now + cooldown, false;
    }

    method Clear()
      modifies this
      ensures View() == FRESH
    {
      status, failures, openUntil, reason, probe := Closed, 0, ZERO_TIME, "", false;
    }
  }

  // --- histories of one circuit ---

  /** Everything a breaker call does to one circuit under its lock, except Clear. */
  datatype Action =
    | Look
    | Reserve
    | Release
    | Rec(o: Outcome, jitter: Duration -> Duration)

  datatype Moment = Moment(action: Action, now: Time)

  function Act(cfg: Config, ks: KeyState, m: Moment): KeyState {
    match m.action
    case Look => Transition(ks, m.now)
    case Reserve => var t := Transition(ks, m.now); if Admits(t) then Reserved(t) else t
    case Release => Released(ks)
    case Rec(o, jitter) => Recorded(cfg, ks, o, m.now, jitter)
  }

  function Replay(cfg: Config, ks: KeyState, h: seq<Moment>): KeyState {
    if h == [] then ks else Act(cfg, Replay(cfg, ks, h[..|h| - 1]), h[|h| - 1])
  }

  /** Counted failures since the last success. */
  function Streak(h: seq<Moment>): nat {
    if h == [] then 0
    else
      var before, a := Streak(h[..|h| - 1]), h[|h| - 1].action;
      if !a.Rec? then before else if a.o.success then 0 else if Counts(a.o) then before + 1 else before
  }

  /** Outcome i takes the key out of service: it names a reason, or is a non-retryable credential failure that
      arrives as at least the N-th counted failure since the last success. */
  predicate Condemns(cfg: Config, h: seq<Moment>, i: nat)
    requires i < |h|
  {
    var a := h[i].action;
    a.Rec? && (Fatal(a.o) || (Counts(a.o) && a.o.scope.Credential? && !a.o.retryable
                              && Streak(h[..i + 1]) >= cfg.threshold))
  }

  function ReasonOf(o: Outcome): string { if o.reason != "" then o.reason else BANNED }

  lemma CondemnsPrefix(cfg: Config, h: seq<Moment>, i: nat, n: nat)
    requires i < n <= |h|
    ensures Condemns(cfg, h[..n], i) <==> Condemns(cfg, h, i)
  {
    assert h[..n][..i + 1] == h[..i + 1];
  }

  lemma {:induction false} InServiceUntilCondemned(cfg: Config, h: seq<Moment>)
    requires forall i | 0 <= i < |h| :: !Condemns(cfg, h, i)
    ensures !Replay(cfg, FRESH, h).status.Terminal? && Replay(cfg, FRESH, h).failures == Streak(h)
  {
    if h != [] {
      var p := h[..|h| - 1];
      forall i | 0 <= i < |p| ensures !Condemns(cfg, p, i) { CondemnsPrefix(cfg, h, i, |p|); }
      InServiceUntilCondemned(cfg, p);
      assert h[..|h|] == h;
      assert !Condemns(cfg, h, |h| - 1);
    }
  }

  lemma {:induction false} TerminalAbsorbs(cfg: Config, ks: KeyState, h: seq<Moment>)
    requires ks.status.Terminal?
    ensures Replay(cfg, ks, h) == ks
  {
    if h != [] {
      TerminalAbsorbs(cfg, ks, h[..|h| - 1]);
    }
  }

  lemma {:induction false} ReplaySplit(cfg: Config, ks: KeyState, g: seq<Moment>, h: seq<Moment>)
    ensures Replay(cfg, ks, g + h) == Replay(cfg, Replay(cfg, ks, g), h)
  {
    if h == [] {
      assert g + h == g;
    } else {
      ReplaySplit(cfg, ks, g, h[..|h| - 1]);
      assert (g + h)[..|g + h| - 1] == g + h[..|h| - 1];
    }
  }

  /** The first condemning outcome makes the key terminal, with its reason, for good. */
  lemma CondemnedForGood(cfg: Config, h: seq<Moment>, i: nat)
    requires i < |h| && Condemns(cfg, h, i)
    requires forall j | 0 <= j < i :: !Condemns(cfg, h, j)
    ensures Replay(cfg, FRESH, h).status.Terminal? && Replay(cfg, FRESH, h).reason == ReasonOf(h[i].action.o)
  {
    var p, q := h[..i], h[..i + 1];
    forall j | 0 <= j < i ensures !Condemns(cfg, p, j) { CondemnsPrefix(cfg, h, j, i); }
    InServiceUntilCondemned(cfg, p);
    assert q[..|q| - 1] == p;
    assert Replay(cfg, FRESH, q).status.Terminal?;
    assert h == q + h[i + 1..];
    ReplaySplit(cfg, FRESH, q, h[i + 1..]);
    TerminalAbsorbs(cfg, Replay(cfg, FRESH, q), h[i + 1..]);
  }

  lemma {:induction false} FirstCondemning(cfg: Config, h: seq<Moment>, n: nat) returns (i: nat)
    requires n <= |h| && exists j :: 0 <= j < n && Condemns(cfg, h, j)
    ensures i < n && Condemns(cfg, h, i) && forall j | 0 <= j < i :: !Condemns(cfg, h, j)
  {
    if j :| 0 <= j < n - 1 && Condemns(cfg, h, j) {
      i := FirstCondemning(cfg, h, n - 1);
    } else {
      i := n - 1;
    }
  }

  /** A key is terminal exactly when its outcomes condemned it, whatever the times and whatever else was asked. */
  lemma TerminalIffCondemned(cfg: Config, h: seq<Moment>)
    ensures Replay(cfg, FRESH, h).status.Terminal? <==> exists i :: 0 <= i < |h| && Condemns(cfg, h, i)
  {
    if exists i :: 0 <= i < |h| && Condemns(cfg, h, i) {
      var i := FirstCondemning(cfg, h, |h|);
      CondemnedForGood(cfg, h, i);
    } else {
      InServiceUntilCondemned(cfg, h);
    }
  }

  // --- cooldowns hold ---

  /** An open key stays open, with the same end, through every failure and question before that end, and admits
      nobody; only a success or a condemning outcome ends the cooldown early. */
  lemma {:induction false} CooldownHolds(cfg: Config, ks: KeyState, h: seq<Moment>)
    requires ks.status.Open?
    requires forall i | 0 <= i < |h| :: h[i].now < ks.openUntil
    requires forall i | 0 <= i < |h| && h[i].action.Rec? :: !h[i].action.o.success
    requires !Replay(cfg, ks, h).status.Terminal?
    ensures Replay(cfg, ks, h).status.Open? && Replay(cfg, ks, h).openUntil == ks.openUntil
    ensures forall t | t < ks.openUntil :: !Admits(Transition(Replay(cfg, ks, h), t))
  {
    if h != [] {
      var p := h[..|h| - 1];
      if Replay(cfg, ks, p).status.Terminal? {
        TerminalAbsorbs(cfg, Replay(cfg, ks, p), [h[|h| - 1]]);
      }
      CooldownHolds(cfg, ks, p);
    }
  }

  // --- the half-open probe ---

  /** A record that resolves an outstanding probe of a key in state ks. */
  predicate Resolves(cfg: Config, ks: KeyState, o: Outcome) {
    o.success || Fatal(o) || (Counts(o) && (o.scope.Credential? && !o.retryable ==> ks.failures + 1 >= cfg.threshold))
  }

  predicate Probing(ks: KeyState) { ks.status.HalfOpen? && ks.probe }

  /** A probing key stays probing exactly until a record resolves it: a request-scoped failure, a non-retryable
      provider failure or a credential failure short of the threshold leaves the slot taken. */
  lemma ProbeEndsIffResolved(cfg: Config, ks: KeyState, o: Outcome, now: Time, jitter: Duration -> Duration)
    requires Probing(ks)
    ensures Probing(Recorded(cfg, ks, o, now, jitter)) <==> !Resolves(cfg, ks, o)
  {
  }

  /** While no record resolves it a probing key admits nobody, however much time passes. */
  lemma {:induction false} UnresolvedProbeBlocks(cfg: Config, ks: KeyState, h: seq<Moment>, now: Time)
    requires Probing(ks)
    requires forall i | 0 <= i < |h| ::
      !h[i].action.Release? && (h[i].action.Rec? ==> !Resolves(cfg, Replay(cfg, ks, h[..i]), h[i].action.o))
    ensures Probing(Replay(cfg, ks, h)) && !Admits(Transition(Replay(cfg, ks, h), now))
  {
    if h != [] {
      var p := h[..|h| - 1];
      forall i | 0 <= i < |p| ensures p[..i] == h[..i] && p[i] == h[i] {}
      UnresolvedProbeBlocks(cfg, ks, p, now);
    }
  }

  // --- backoff ---

  lemma {:induction false} Pow2Monotone(m: nat, n: nat)
    requires m <= n
    ensures Pow2(m) <= Pow2(n)
  {
    if m < n { Pow2Monotone(m, n - 1); }
  }

  lemma Pow2At30()
    ensures Pow2(30) == 0x4000_0000
  {
    assert Pow2(5) == 32;
    assert Pow2(10) == 1024;
    assert Pow2(15) == 0x8000;
    assert Pow2(20) == 0x10_0000;
    assert Pow2(25) == 0x200_0000;
  }

  /** The documented backoff. */
  function Ideal(cfg: Config, f: nat): Duration
    requires f >= 1
  {
    Min(cfg.base * Pow2(Min(f - 1, MAX_SHIFT)), cfg.max)
  }

  lemma WrapIsIdentityBelow(x: int)
    requires 0 <= x < TWO_63
    ensures Wrap64(x) == x
  {
  }

  /** The shifted 64-bit backoff is the documented one exactly unless the shift overflows to a small positive value. */
  lemma CooldownIsIdealIff(cfg: Config, f: nat)
    requires f >= 1 && 0 < cfg.base && 0 < cfg.max < TWO_63
    ensures var exact := cfg.base * Pow2(Min(f - 1, MAX_SHIFT));
      Cooldown(cfg, f) == Ideal(cfg, f) <==> !(exact >= TWO_63 && 0 < Wrap64(exact) < cfg.max)
  {
    var p := Pow2(Min(f - 1, MAX_SHIFT));
    assert cfg.base * p > 0;
    if cfg.base * p < TWO_63 {
      WrapIsIdentityBelow(cfg.base * p);
    }
  }

  /** Bases under 2^33 ns (about 8.6 s) never overflow, and the cooldown never decreases along a streak. */
  lemma SmallBaseBacksOff(cfg: Config, f: nat, g: nat)
    requires 1 <= f <= g && 0 < cfg.base < TWO_33 && 0 < cfg.max < TWO_63
    ensures Cooldown(cfg, f) == Ideal(cfg, f)
    ensures Cooldown(cfg, f) <= Cooldown(cfg, g)
  {
    SmallBaseExact(cfg, f);
    SmallBaseExact(cfg, g);
    var m, n := Min(f - 1, MAX_SHIFT), Min(g - 1, MAX_SHIFT);
    Pow2Monotone(m, n);
    ScaleMonotone(cfg.base, Pow2(m), Pow2(n));
  }

  lemma ScaleMonotone(b: int, x: int, y: int)
    requires 0 <= b && x <= y
    ensures b * x <= b * y
  {
  }

  lemma SmallBaseExact(cfg: Config, f: nat)
    requires 1 <= f && 0 < cfg.base < TWO_33 && 0 < cfg.max < TWO_63
    ensures Cooldown(cfg, f) == Ideal(cfg, f)
  {
    var n := Min(f - 1, MAX_SHIFT);
    Pow2Monotone(n, 30);
    Pow2At30();
    ScaleMonotone(cfg.base, Pow2(n), 0x4000_0000);
    CooldownIsIdealIff(cfg, f);
  }

  /** A base of 2^34 + 1 ns (about 17 s) is accepted by the configuration, yet at the 31st failure its shift
      overflows to about one second, far below the ceiling the failure before it got. */
  lemma WideBaseCollapses(max: Duration)
    requires 0x4000_0000 < max < TWO_63
    ensures var cfg := Config(0x4_0000_0001, max, 3);
      && Cooldown(cfg, 30) == Ideal(cfg, 30) == max
      && Cooldown(cfg, 31) == 0x4000_0000 < max == Ideal(cfg, 31)
  {
    Pow2At30();
    assert Pow2(30) == 2 * Pow2(29);
    assert Min(29, MAX_SHIFT) == 29 && Min(30, MAX_SHIFT) == 30;
    assert 0x4_0000_0001 * 0x2000_0000 == TWO_63 + 0x2000_0000;
    assert 0x4_0000_0001 * 0x4000_0000 == TWO_64 + 0x4000_0000;
  }
}
