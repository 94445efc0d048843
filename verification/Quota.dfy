/** Quota accounting and the quota filter (internal/quota/recorder.go, filter.go), over the reals and in memory. */
module Quota {

  datatype Option<T> = None | Some(value: T)

  type Time = int

  datatype Source = LocalCounter | Header | RetryHint

  datatype Unit = Tokens | Requests | Cost

  datatype Usage = Usage(credential: string, key: string, tokens: nat, requests: nat, cost: nat)

  /** Limit 0 is an unknown ceiling. */
  datatype Spec = Spec(kind: string, unit: Unit, limit: real, duration: int)

  datatype Window = Window(kind: string, limit: real, used: real, remaining: real, resetsAt: Option<Time>, source: Source)

  datatype Config = Config(specs: seq<Spec>, cutoff: real, cutoffs: map<string, real>)

  datatype State = State(windows: map<string, seq<Window>>, terminal: map<string, string>, applied: set<string>)

  const EMPTY := State(map[], map[], {})

  function Value(unit: Unit, u: Usage): real {
    match unit
    case Tokens => u.tokens as real
    case Requests => u.requests as real
    case Cost => u.cost as real
  }

  function Clamp(limit: real, x: real): real { if limit > 0.0 && x > limit then limit else x }

  function Fraction(limit: real, used: real): real {
    if limit > 0.0 then (var r := (limit - used) / limit; if r > 1.0 then 1.0 else r) else 1.0
  }

  function SetRemaining(w: Window): Window {
    var used := Clamp(w.limit, w.used);
    w.(used := used, remaining := Fraction(w.limit, used))
  }

  function Fold(w: Window, spec: Spec, u: Usage, now: Time): Window {
    var w1 := if w.resetsAt.Some? && now >= w.resetsAt.value then w.(used := 0.0, resetsAt := Some(now + spec.duration)) else w;
    if w1.source.LocalCounter? then SetRemaining(w1.(used := w1.used + Value(spec.unit, u))) else w1
  }

  function Created(spec: Spec, now: Time): Window {
    Window(spec.kind, spec.limit, 0.0, 1.0, if spec.duration > 0 then Some(now + spec.duration) else None, LocalCounter)
  }

  /** The first window of a kind. */
  function Find(ws: seq<Window>, kind: string): (i: nat)
    ensures i <= |ws| && (i < |ws| ==> ws[i].kind == kind)
    ensures i == |ws| ==> forall j | 0 <= j < |ws| :: ws[j].kind != kind
  {
    if ws == [] then 0 else if ws[0].kind == kind then 0 else Find(ws[1..], kind) + 1
  }

  function Get(ws: seq<Window>, kind: string): Option<Window> {
    var i := Find(ws, kind);
    if i < |ws| then Some(ws[i]) else None
  }

  /** Write the window of w's kind, appending it when there is none. */
  function Put(ws: seq<Window>, w: Window): seq<Window> {
    var i := Find(ws, w.kind);
    if i < |ws| then ws[i := w] else ws + [w]
  }

  lemma {:induction false} FindAppend(ws: seq<Window>, w: Window, kind: string)
    ensures Find(ws + [w], kind)
         == if Find(ws, kind) < |ws| then Find(ws, kind) else if w.kind == kind then |ws| else |ws| + 1
  {
    if ws != [] {
      assert (ws + [w])[1..] == ws[1..] + [w];
      FindAppend(ws[1..], w, kind);
    }
  }

  lemma {:induction false} FindUpdate(ws: seq<Window>, i: nat, w: Window, kind: string)
    requires i < |ws| && ws[i].kind == w.kind
    ensures Find(ws[i := w], kind) == Find(ws, kind)
  {
    if i > 0 {
      assert ws[i := w][1..] == ws[1..][i - 1 := w];
      FindUpdate(ws[1..], i - 1, w, kind);
    }
  }

  lemma GetPut(ws: seq<Window>, w: Window, kind: string)
    ensures Get(Put(ws, w), kind) == if kind == w.kind then Some(w) else Get(ws, kind)
  {
    var i := Find(ws, w.kind);
    if i < |ws| {
      FindUpdate(ws, i, w, kind);
    } else {
      FindAppend(ws, w, kind);
    }
  }

  function ApplySpec(ws: seq<Window>, spec: Spec, u: Usage, now: Time): seq<Window> {
    var w := Get(ws, spec.kind);
    Put(ws, Fold(if w.Some? then w.value else Created(spec, now), spec, u, now))
  }

  function ApplyAll(specs: seq<Spec>, ws: seq<Window>, u: Usage, now: Time): seq<Window> {
    if specs == [] then ws else ApplyAll(specs[1..], ApplySpec(ws, specs[0], u, now), u, now)
  }

  function WindowsOf(s: State, cred: string): seq<Window> { if cred in s.windows then s.windows[cred] else [] }

  /** One delivery of a usage record. */
  function Recorded(cfg: Config, s: State, u: Usage, now: Time): State {
    if u.credential == "" || (u.key != "" && u.key in s.applied) then s
    else
      s.(windows := s.windows[u.credential := ApplyAll(cfg.specs, WindowsOf(s, u.credential), u, now)],
         applied := if u.key != "" then s.applied + {u.key} else s.applied)
  }

  function Hinted(s: State, cred: string, kind: string, resetsAt: Time): State {
    if cred == "" then s
    else
      var ws := WindowsOf(s, cred);
      var w := Get(ws, kind);
      var base := if w.Some? then w.value else Window(kind, 0.0, 0.0, 0.0, None, LocalCounter);
      var next := if base.source.Header? then base else base.(resetsAt := Some(resetsAt), remaining := 0.0, source := RetryHint);
      s.(windows := s.windows[cred := Put(ws, next)])
  }

  /** A credential is marked terminal. */
  function Marked(s: State, cred: string, code: string): State {
    if cred == "" || code == "" then s else s.(terminal := s.terminal[cred := code])
  }

  function HeaderApplied(ws: seq<Window>, hw: Window): seq<Window> { Put(ws, hw.(source := Header)) }

  function HeadersApplied(ws: seq<Window>, hws: seq<Window>): seq<Window>
    decreases |hws|
  {
    if hws == [] then ws else HeadersApplied(HeaderApplied(ws, hws[0]), hws[1..])
  }

  function CutoffFor(cfg: Config, kind: string): real { if kind in cfg.cutoffs then cfg.cutoffs[kind] else cfg.cutoff }

  predicate Spent(cfg: Config, w: Window) { w.limit > 0.0 && w.remaining <= CutoffFor(cfg, w.kind) }

  predicate Blocked(cfg: Config, s: State, cred: string) {
    cred != "" && ((cred in s.terminal && s.terminal[cred] != "")
                   || exists i :: 0 <= i < |WindowsOf(s, cred)| && Spent(cfg, WindowsOf(s, cred)[i]))
  }

  // --- the recorder object ---

  class Recorder {
    const cfg: Config
    var windows: map<string, seq<Window>>
    var terminal: map<string, string>
    var applied: set<string>

    function View(): State
      reads this
    {
      State(windows, terminal, applied)
    }

    constructor (cfg: Config)
      ensures View() == EMPTY && this.cfg == cfg
    {
      this.cfg := cfg;
      windows, terminal, applied := map[], map[], {};
    }

    method Record(u: Usage, now: Time)
      modifies this
      ensures View() == Recorded(cfg, old(View()), u, now)
    {
      if u.credential == "" {
        return;
      }
      if u.key in applied && u.key != "" {
        return;
      }
      if u.credential !in windows {
        windows := windows[u.credential := []];
      }
      ApplyLocked(u, now);
      if u.key != "" {
        applied := applied + {u.key};
      }
    }

    method ApplyLocked(u: Usage, now: Time)
      requires u.credential in windows
      modifies this`windows
      ensures windows
           == old(windows)[u.credential := ApplyAll(cfg.specs, old(windows)[u.credential], u, now)]
    {
      var ws := windows[u.credential];
      ghost var goal := ApplyAll(cfg.specs, ws, u, now);
      for i := 0 to |cfg.specs|
        invariant windows == old(windows)
        invariant ApplyAll(cfg.specs[i..], ws, u, now) == goal
      {
        var spec := cfg.specs[i];
        assert cfg.specs[i..][0] == spec && cfg.specs[i..][1..] == cfg.specs[i + 1..];
        var at := Find(ws, spec.kind);
        var w := Count(if at < |ws| then ws[at] else Created(spec, now), spec, u, now);
        ws := if at < |ws| then ws[at := w] else ws + [w];
      }
      assert cfg.specs[|cfg.specs|..] == [] && ws == goal;
      windows := windows[u.credential := ws];
    }

    /** One window: roll over past its reset, then count unless a header or hint knows better. */
    static method Count(was: Window, spec: Spec, u: Usage, now: Time) returns (w: Window)
      ensures w == Fold(was, spec, u, now)
    {
      w := was;
      if w.resetsAt.Some? && now >= w.resetsAt.value {
        w := w.(used := 0.0, resetsAt := Some(now + spec.duration));
      }
      if w.source.LocalCounter? {
        w := SetRemaining(w.(used := w.used + Value(spec.unit, u)));
      }
    }

    method ApplyHeader(cred: string, hws: seq<Window>)
      modifies this`windows
      ensures windows
           == if cred == "" || hws == [] then old(windows)
              else old(windows)[cred := HeadersApplied(WindowsOf(old(View()), cred), hws)]
    {
      if cred == "" || hws == [] {
        return;
      }
      var ws := if cred in windows then windows[cred] else [];
      ghost var goal := HeadersApplied(ws, hws);
      for i := 0 to |hws|
        invariant HeadersApplied(ws, hws[i..]) == goal
      {
        assert hws[i..][1..] == hws[i + 1..];
        var at := Find(ws, hws[i].kind);
        var w := hws[i].(source := Header);
        ws := if at < |ws| then ws[at := w] else ws + [w];
      }
      windows := windows[cred := ws];
    }

    method ApplyRetryHint(cred: string, kind: string, resetsAt: Time)
      modifies this`windows
      ensures View() == Hinted(old(View()), cred, kind, resetsAt)
    {
      if cred == "" {
        return;
      }
      var ws := if cred in windows then windows[cred] else [];
      ghost var before := ws;
      var at := Find(ws, kind);
      if at == |ws| {
        ws := ws + [Window(kind, 0.0, 0.0, 0.0, None, LocalCounter)];
      }
      if !ws[at].source.Header? {
        ws := ws[at := ws[at].(resetsAt := Some(resetsAt), remaining := 0.0, source := RetryHint)];
      }
      assert ws == Put(before, ws[at]);
      windows := windows[cred := ws];
    }

    method SetTerminal(cred: string, code: string)
      modifies this`terminal
      ensures View() == Marked(old(View()), cred, code)
    {
      if cred != "" && code != "" {
        terminal := terminal[cred := code];
      }
    }

    method Check(cred: string) returns (blocked: bool)
      ensures blocked == Blocked(cfg, View(), cred)
    {
      if cred == "" {
        return false;
      }
      if cred in terminal && terminal[cred] != "" {
        return true;
      }
      var ws := if cred in windows then windows[cred] else [];
      for i := 0 to |ws|
        invariant forall j | 0 <= j < i :: !Spent(cfg, ws[j])
      {
        if ws[i].limit > 0.0 && ws[i].remaining <= CutoffFor(cfg, ws[i].kind) {
          assert Spent(cfg, WindowsOf(View(), cred)[i]);
          return true;
        }
      }
      return false;
    }
  }

  // --- what a period's deliveries add up to ---

  datatype Delivery = Delivery(u: Usage, now: Time)

  function Deliver(cfg: Config, s: State, run: seq<Delivery>): State {
    if run == [] then s else Recorded(cfg, Deliver(cfg, s, run[..|run| - 1]), run[|run| - 1].u, run[|run| - 1].now)
  }

  /** What one usage adds to the window of a kind. */
  function Amount(specs: seq<Spec>, kind: string, u: Usage): (a: real)
    ensures a >= 0.0
  {
    if specs == [] then 0.0
    else
      var units := match specs[0].unit case Tokens => u.tokens case Requests => u.requests case Cost => u.cost;
      (if specs[0].kind == kind then units as real else 0.0) + Amount(specs[1..], kind, u)
  }

  predicate Declared(specs: seq<Spec>, kind: string) { exists i :: 0 <= i < |specs| && specs[i].kind == kind }

  /** The declaration that creates the window. */
  function SpecOf(specs: seq<Spec>, kind: string): Spec
    requires Declared(specs, kind)
  {
    if specs[0].kind == kind then specs[0] else SpecOf(specs[1..], kind)
  }

  /** The first delivery of its attempt key, or one without a key. */
  predicate Counts(run: seq<Delivery>, i: nat)
    requires i < |run|
  {
    run[i].u.credential != ""
    && (run[i].u.key == "" || forall j | 0 <= j < i :: run[j].u.key == run[i].u.key ==> run[j].u.credential == "")
  }

  predicate For(run: seq<Delivery>, i: nat, cred: string)
    requires i < |run|
  {
    Counts(run, i) && run[i].u.credential == cred
  }

  function Sum(specs: seq<Spec>, kind: string, cred: string, run: seq<Delivery>): (x: real)
    ensures x >= 0.0
  {
    if run == [] then 0.0
    else
      var n := |run| - 1;
      Sum(specs, kind, cred, run[..n]) + if For(run, n, cred) then Amount(specs, kind, run[n].u) else 0.0
  }

  /** A locally counted window that has seen x so far and does not reset before `end`. */
  ghost predicate Holds(w: Window, limit: real, x: real, end: Option<Time>) {
    && w.source.LocalCounter? && w.limit == limit && w.resetsAt == end
    && w.used == Clamp(limit, x) && w.remaining == Fraction(limit, Clamp(limit, x))
  }

  ghost predicate Before(now: Time, end: Option<Time>) { end.Some? ==> now < end.value }

  lemma ClampAdd(limit: real, x: real, a: real)
    requires a >= 0.0
    ensures Clamp(limit, Clamp(limit, x) + a) == Clamp(limit, x + a)
  {
  }

  lemma {:induction false} ApplyAllHolds(specs: seq<Spec>, ws: seq<Window>, u: Usage, now: Time, kind: string, x: real,
                                         limit: real, end: Option<Time>)
    requires Before(now, end) && Get(ws, kind).Some? && Holds(Get(ws, kind).value, limit, x, end)
    ensures var w := Get(ApplyAll(specs, ws, u, now), kind); w.Some? && Holds(w.value, limit, x + Amount(specs, kind, u), end)
    decreases |specs|
  {
    if specs != [] {
      var spec := specs[0];
      var w := Get(ws, spec.kind);
      var w1 := Fold(if w.Some? then w.value else Created(spec, now), spec, u, now);
      GetPut(ws, w1, kind);
      var a := if spec.kind == kind then Value(spec.unit, u) else 0.0;
      if spec.kind == kind { ClampAdd(limit, x, a); }
      ApplyAllHolds(specs[1..], ApplySpec(ws, spec, u, now), u, now, kind, x + a, limit, end);
      assert x + a + Amount(specs[1..], kind, u) == x + Amount(specs, kind, u);
    }
  }

  lemma {:induction false} ApplyAllCreates(specs: seq<Spec>, ws: seq<Window>, u: Usage, now: Time, kind: string)
    requires Get(ws, kind).None? && Declared(specs, kind)
    ensures var spec := SpecOf(specs, kind);
      var w := Get(ApplyAll(specs, ws, u, now), kind);
      w.Some? && Holds(w.value, spec.limit, Amount(specs, kind, u), Created(spec, now).resetsAt)
    decreases |specs|
  {
    var spec := specs[0];
    var w := Get(ws, spec.kind);
    var w1 := Fold(if w.Some? then w.value else Created(spec, now), spec, u, now);
    GetPut(ws, w1, kind);
    if spec.kind == kind {
      ApplyAllHolds(specs[1..], ApplySpec(ws, spec, u, now), u, now, kind, Value(spec.unit, u), spec.limit,
                    Created(spec, now).resetsAt);
    } else {
      ApplyAllCreates(specs[1..], ApplySpec(ws, spec, u, now), u, now, kind);
    }
  }

  /** All deliveries for the credential fall within one period of the window. */
  ghost predicate OnePeriod(specs: seq<Spec>, kind: string, cred: string, run: seq<Delivery>)
    requires Declared(specs, kind)
  {
    SpecOf(specs, kind).duration > 0 ==>
      forall i, j | 0 <= i < |run| && 0 <= j < |run| && run[i].u.credential == cred && run[j].u.credential == cred ::
        run[i].now < run[j].now + SpecOf(specs, kind).duration
  }

  ghost predicate Seen(run: seq<Delivery>, k: string) {
    exists i :: 0 <= i < |run| && run[i].u.key == k && run[i].u.credential != ""
  }

  lemma {:induction false} AppliedKeys(cfg: Config, run: seq<Delivery>, k: string)
    ensures k in Deliver(cfg, EMPTY, run).applied <==> k != "" && Seen(run, k)
  {
    if run != [] {
      var n := |run| - 1;
      var p := run[..n];
      AppliedKeys(cfg, p, k);
      AppliedKeys(cfg, p, run[n].u.key);
      if i :| 0 <= i < |p| && p[i].u.key == k && p[i].u.credential != "" { assert run[i] == p[i]; }
      if i :| 0 <= i < |run| && run[i].u.key == k && run[i].u.credential != "" { assert i < n ==> p[i] == run[i]; }
    }
  }

  /** The last delivery is applied exactly when it counts. */
  ghost predicate AppliedIffCounted(cfg: Config, run: seq<Delivery>)
    requires run != []
  {
    var n := |run| - 1;
    var u := run[n].u;
    (u.credential == "" || (u.key != "" && u.key in Deliver(cfg, EMPTY, run[..n]).applied)) <==> !Counts(run, n)
  }

  lemma AppliesIffCounts(cfg: Config, run: seq<Delivery>)
    requires run != []
    ensures AppliedIffCounted(cfg, run)
  {
    var n := |run| - 1;
    AppliedKeys(cfg, run[..n], run[n].u.key);
    forall j | 0 <= j < n ensures run[..n][j] == run[j] {}
  }

  lemma CountsPrefix(run: seq<Delivery>, n: nat, i: nat)
    requires i < n <= |run|
    ensures Counts(run[..n], i) == Counts(run, i)
  {
    forall j | 0 <= j < i ensures run[..n][j] == run[j] {}
  }

  /** When some delivery counted, the first of them set the reset. */
  ghost predicate Started(specs: seq<Spec>, kind: string, cred: string, run: seq<Delivery>, end: Option<Time>)
    requires Declared(specs, kind)
  {
    exists i :: 0 <= i < |run| && For(run, i, cred) && end == Created(SpecOf(specs, kind), run[i].now).resetsAt
  }

  /** The window after a run: absent until a delivery counts, then holding the clamped sum of those that count. */
  ghost predicate Tracks(cfg: Config, run: seq<Delivery>, cred: string, kind: string)
    requires Declared(cfg.specs, kind)
  {
    var s := Deliver(cfg, EMPTY, run);
    var w := Get(WindowsOf(s, cred), kind);
    if exists i :: 0 <= i < |run| && For(run, i, cred) then
      && w.Some? && Started(cfg.specs, kind, cred, run, w.value.resetsAt)
      && Holds(w.value, SpecOf(cfg.specs, kind).limit, Sum(cfg.specs, kind, cred, run), w.value.resetsAt)
    else cred !in s.windows
  }

  /** Within one period a local window's counter is the clamped sum of the first deliveries, whatever was replayed. */
  lemma {:induction false} UsedIsClampedSum(cfg: Config, run: seq<Delivery>, cred: string, kind: string)
    requires Declared(cfg.specs, kind) && OnePeriod(cfg.specs, kind, cred, run)
    ensures Tracks(cfg, run, cred, kind)
  {
    if run != [] {
      var n := |run| - 1;
      var p := run[..n];
      UsedIsClampedSum(cfg, p, cred, kind);
      AppliesIffCounts(cfg, run);
      forall i | 0 <= i < n ensures For(p, i, cred) == For(run, i, cred) && p[i] == run[i] { CountsPrefix(run, n, i); }
      StepTracks(cfg, run, cred, kind);
    }
  }

  lemma StepTracks(cfg: Config, run: seq<Delivery>, cred: string, kind: string)
    requires Declared(cfg.specs, kind) && OnePeriod(cfg.specs, kind, cred, run) && run != []
    requires AppliedIffCounted(cfg, run)
    requires forall i | 0 <= i < |run| - 1 :: For(run[..|run| - 1], i, cred) == For(run, i, cred)
    requires Tracks(cfg, run[..|run| - 1], cred, kind)
    ensures Tracks(cfg, run, cred, kind)
  {
    if For(run, |run| - 1, cred) {
      CountedStep(cfg, run, cred, kind);
    } else {
      UncountedStep(cfg, run, cred, kind);
    }
  }

  lemma CountedStep(cfg: Config, run: seq<Delivery>, cred: string, kind: string)
    requires Declared(cfg.specs, kind) && OnePeriod(cfg.specs, kind, cred, run) && run != []
    requires AppliedIffCounted(cfg, run) && For(run, |run| - 1, cred)
    requires forall i | 0 <= i < |run| - 1 :: For(run[..|run| - 1], i, cred) == For(run, i, cred)
    requires Tracks(cfg, run[..|run| - 1], cred, kind)
    ensures Tracks(cfg, run, cred, kind)
  {
    var n := |run| - 1;
    var p := run[..n];
    var u, now := run[n].u, run[n].now;
    var ws := WindowsOf(Deliver(cfg, EMPTY, p), cred);
    if i :| 0 <= i < |p| && For(p, i, cred) {
      var end := Get(ws, kind).value.resetsAt;
      var j :| 0 <= j < |p| && For(p, j, cred) && end == Created(SpecOf(cfg.specs, kind), p[j].now).resetsAt;
      assert run[j] == p[j];
      assert For(run, j, cred);
      ApplyAllHolds(cfg.specs, ws, u, now, kind, Sum(cfg.specs, kind, cred, p), SpecOf(cfg.specs, kind).limit, end);
    } else {
      NoneSumsToZero(cfg.specs, kind, cred, p);
      ApplyAllCreates(cfg.specs, ws, u, now, kind);
    }
  }

  lemma UncountedStep(cfg: Config, run: seq<Delivery>, cred: string, kind: string)
    requires Declared(cfg.specs, kind) && run != []
    requires AppliedIffCounted(cfg, run) && !For(run, |run| - 1, cred)
    requires forall i | 0 <= i < |run| - 1 :: For(run[..|run| - 1], i, cred) == For(run, i, cred)
    requires Tracks(cfg, run[..|run| - 1], cred, kind)
    ensures Tracks(cfg, run, cred, kind)
  {
    var p := run[..|run| - 1];
    var s, s' := Deliver(cfg, EMPTY, p), Deliver(cfg, EMPTY, run);
    assert WindowsOf(s', cred) == WindowsOf(s, cred) && (cred in s'.windows <==> cred in s.windows);
    if i :| 0 <= i < |p| && For(p, i, cred) {
      assert For(run, i, cred);
      var end := Get(WindowsOf(s, cred), kind).value.resetsAt;
      var j :| 0 <= j < |p| && For(p, j, cred) && end == Created(SpecOf(cfg.specs, kind), p[j].now).resetsAt;
      assert For(run, j, cred) && run[j] == p[j];
    }
  }

  lemma {:induction false} NoneSumsToZero(specs: seq<Spec>, kind: string, cred: string, run: seq<Delivery>)
    requires forall i | 0 <= i < |run| :: !For(run, i, cred)
    ensures Sum(specs, kind, cred, run) == 0.0
  {
    if run != [] {
      var n := |run| - 1;
      forall i | 0 <= i < n ensures !For(run[..n], i, cred) {
        CountsPrefix(run, n, i);
        assert !For(run, i, cred);
      }
      NoneSumsToZero(specs, kind, cred, run[..n]);
    }
  }

  /** Redelivering an attempt, with whatever quantities, changes nothing. */
  lemma ReplayChangesNothing(cfg: Config, run: seq<Delivery>, again: Delivery)
    requires again.u.key != ""
    requires Seen(run, again.u.key)
    ensures Deliver(cfg, EMPTY, run + [again]) == Deliver(cfg, EMPTY, run)
  {
    assert (run + [again])[..|run|] == run;
    AppliedKeys(cfg, run, again.u.key);
  }

  // --- delivery order ---

  ghost function SumKeys(ks: set<string>, g: string -> real): real {
    if ks == {} then 0.0 else var k :| k in ks; g(k) + SumKeys(ks - {k}, g)
  }

  lemma {:induction false} SumKeysWithout(ks: set<string>, g: string -> real, k: string)
    requires k in ks
    ensures SumKeys(ks, g) == g(k) + SumKeys(ks - {k}, g)
    decreases |ks|
  {
    var j :| j in ks && SumKeys(ks, g) == g(j) + SumKeys(ks - {j}, g);
    if j != k {
      SumKeysWithout(ks - {j}, g, k);
      SumKeysWithout(ks - {k}, g, j);
      assert ks - {j} - {k} == ks - {k} - {j};
    }
  }

  function SumSeq(run: seq<Delivery>, h: Delivery -> real): real {
    if run == [] then 0.0 else SumSeq(run[..|run| - 1], h) + h(run[|run| - 1])
  }

  lemma {:induction false} SumSeqWithout(run: seq<Delivery>, h: Delivery -> real, j: nat)
    requires j < |run|
    ensures SumSeq(run, h) == h(run[j]) + SumSeq(run[..j] + run[j + 1..], h)
  {
    var n := |run| - 1;
    var rest := run[..j] + run[j + 1..];
    if j < n {
      SumSeqWithout(run[..n], h, j);
      assert rest[..|rest| - 1] == run[..n][..j] + run[..n][j + 1..];
    } else {
      assert rest == run[..n];
    }
  }

  lemma {:induction false} SumSeqPermuted(a: seq<Delivery>, b: seq<Delivery>, h: Delivery -> real)
    requires multiset(a) == multiset(b)
    ensures SumSeq(a, h) == SumSeq(b, h)
    decreases |a|
  {
    if a == [] {
      assert |multiset(b)| == 0;
    } else {
      var n := |a| - 1;
      var j := RemovedFrom(a, b);
      SumSeqPermuted(a[..n], b[..j] + b[j + 1..], h);
      SumSeqWithout(b, h, j);
    }
  }

  /** Where b holds the last element of its permutation a, and what is left of both without it. */
  lemma RemovedFrom(a: seq<Delivery>, b: seq<Delivery>) returns (j: nat)
    requires a != [] && multiset(a) == multiset(b)
    ensures j < |b| && b[j] == a[|a| - 1] && multiset(a[..|a| - 1]) == multiset(b[..j] + b[j + 1..])
  {
    var n := |a| - 1;
    assert a[n] in multiset(b);
    j :| j < |b| && b[j] == a[n];
    assert a == a[..n] + [a[n]];
    assert b == b[..j] + [b[j]] + b[j + 1..];
    assert multiset(a[..n]) == multiset(a) - multiset{a[n]};
    assert multiset(b[..j] + b[j + 1..]) == multiset(b) - multiset{a[n]};
  }

  /** Every delivery of an attempt key carries the same usage. */
  ghost predicate Consistent(run: seq<Delivery>, usage: string -> Usage) {
    forall i | 0 <= i < |run| && run[i].u.key != "" :: run[i].u == usage(run[i].u.key)
  }

  ghost function KeysOf(run: seq<Delivery>): set<string> { set i | 0 <= i < |run| && run[i].u.key != "" :: run[i].u.key }

  function KeyAmount(specs: seq<Spec>, kind: string, cred: string, usage: string -> Usage): string -> real {
    k => if usage(k).credential == cred then Amount(specs, kind, usage(k)) else 0.0
  }

  function KeylessAmount(specs: seq<Spec>, kind: string, cred: string): Delivery -> real {
    (d: Delivery) => if d.u.key == "" && d.u.credential == cred then Amount(specs, kind, d.u) else 0.0
  }

  lemma {:induction false} SumByKeys(specs: seq<Spec>, kind: string, cred: string, run: seq<Delivery>, usage: string -> Usage)
    requires Consistent(run, usage) && cred != ""
    ensures Sum(specs, kind, cred, run)
         == SumSeq(run, KeylessAmount(specs, kind, cred)) + SumKeys(KeysOf(run), KeyAmount(specs, kind, cred, usage))
  {
    if run != [] {
      var n := |run| - 1;
      var p, k := run[..n], run[n].u.key;
      SumByKeys(specs, kind, cred, p, usage);
      if k == "" {
        assert KeysOf(run) == KeysOf(p);
      } else {
        KeysGrow(run);
        if k in KeysOf(p) {
          var j :| 0 <= j < n && p[j].u.key == k;
          assert run[j].u == run[n].u;
          assert !Counts(run, n);
          assert KeysOf(p) + {k} == KeysOf(p);
        } else {
          assert Counts(run, n) <==> run[n].u.credential != "" by {
            forall j | 0 <= j < n ensures run[j].u.key != k { assert p[j].u.key == run[j].u.key; }
          }
          SumKeysWithout(KeysOf(run), KeyAmount(specs, kind, cred, usage), k);
          assert KeysOf(run) - {k} == KeysOf(p);
        }
      }
    }
  }

  lemma KeysGrow(run: seq<Delivery>)
    requires run != [] && run[|run| - 1].u.key != ""
    ensures KeysOf(run) == KeysOf(run[..|run| - 1]) + {run[|run| - 1].u.key}
  {
    var n := |run| - 1;
    forall k | k in KeysOf(run) ensures k in KeysOf(run[..n]) + {run[n].u.key} {
      var i :| 0 <= i < |run| && run[i].u.key != "" && run[i].u.key == k;
      if i < n { assert run[..n][i].u.key == k; }
    }
    forall k | k in KeysOf(run[..n]) ensures k in KeysOf(run) {
      var i :| 0 <= i < n && run[..n][i].u.key != "" && run[..n][i].u.key == k;
      assert run[i].u.key == k;
    }
  }

  lemma KeysPermuted(a: seq<Delivery>, b: seq<Delivery>)
    requires multiset(a) == multiset(b)
    ensures KeysOf(a) <= KeysOf(b)
  {
    forall k | k in KeysOf(a) ensures k in KeysOf(b) {
      var i :| 0 <= i < |a| && a[i].u.key != "" && a[i].u.key == k;
      assert a[i] in multiset(b);
      var j :| 0 <= j < |b| && b[j] == a[i];
      assert b[j].u.key == k;
    }
  }

  lemma PermutedAlike(specs: seq<Spec>, kind: string, cred: string, a: seq<Delivery>, b: seq<Delivery>, usage: string -> Usage)
    requires Declared(specs, kind) && OnePeriod(specs, kind, cred, a) && Consistent(a, usage) && multiset(a) == multiset(b)
    ensures OnePeriod(specs, kind, cred, b) && Consistent(b, usage)
  {
    forall i | 0 <= i < |b| ensures b[i] in a {
      assert b[i] in multiset(a);
    }
  }

  function UsedOf(s: State, cred: string, kind: string): real {
    var w := Get(WindowsOf(s, cred), kind);
    if w.Some? then w.value.used else 0.0
  }

  /** Deliveries of one period may come in any order: the counter ends the same. */
  lemma DeliveryOrderIrrelevant(cfg: Config, a: seq<Delivery>, b: seq<Delivery>, cred: string, kind: string,
                                usage: string -> Usage)
    requires Declared(cfg.specs, kind) && cred != "" && OnePeriod(cfg.specs, kind, cred, a)
    requires multiset(a) == multiset(b) && Consistent(a, usage)
    ensures UsedOf(Deliver(cfg, EMPTY, a), cred, kind) == UsedOf(Deliver(cfg, EMPTY, b), cred, kind)
         == Clamp(SpecOf(cfg.specs, kind).limit, Sum(cfg.specs, kind, cred, a))
  {
    PermutedAlike(cfg.specs, kind, cred, a, b, usage);
    SumByKeys(cfg.specs, kind, cred, a, usage);
    SumByKeys(cfg.specs, kind, cred, b, usage);
    SumSeqPermuted(a, b, KeylessAmount(cfg.specs, kind, cred));
    KeysPermuted(a, b);
    KeysPermuted(b, a);
    assert KeysOf(a) == KeysOf(b);
    UsedIsSum(cfg, a, cred, kind);
    UsedIsSum(cfg, b, cred, kind);
  }

  lemma UsedIsSum(cfg: Config, run: seq<Delivery>, cred: string, kind: string)
    requires Declared(cfg.specs, kind) && OnePeriod(cfg.specs, kind, cred, run)
    ensures UsedOf(Deliver(cfg, EMPTY, run), cred, kind)
         == Clamp(SpecOf(cfg.specs, kind).limit, Sum(cfg.specs, kind, cred, run))
  {
    UsedIsClampedSum(cfg, run, cred, kind);
    if forall i | 0 <= i < |run| :: !For(run, i, cred) {
      NoneSumsToZero(cfg.specs, kind, cred, run);
    }
  }

  // --- when the filter blocks ---

  /** One window per kind, all declared. */
  ghost predicate Tidy(specs: seq<Spec>, ws: seq<Window>) {
    forall i | 0 <= i < |ws| :: Declared(specs, ws[i].kind) && Find(ws, ws[i].kind) == i
  }

  lemma PutTidy(specs: seq<Spec>, ws: seq<Window>, w: Window)
    requires Tidy(specs, ws) && Declared(specs, w.kind)
    ensures Tidy(specs, Put(ws, w))
  {
    var at := Find(ws, w.kind);
    var r := Put(ws, w);
    forall i | 0 <= i < |r| ensures Declared(specs, r[i].kind) && Find(r, r[i].kind) == i {
      if at < |ws| {
        FindUpdate(ws, at, w, r[i].kind);
        assert i != at ==> r[i] == ws[i];
      } else {
        FindAppend(ws, w, r[i].kind);
        assert i < |ws| ==> r[i] == ws[i];
      }
    }
  }

  lemma {:induction false} ApplyAllTidy(all: seq<Spec>, specs: seq<Spec>, ws: seq<Window>, u: Usage, now: Time)
    requires Tidy(all, ws) && forall i | 0 <= i < |specs| :: Declared(all, specs[i].kind)
    ensures Tidy(all, ApplyAll(specs, ws, u, now))
    decreases |specs|
  {
    if specs != [] {
      var w := Get(ws, specs[0].kind);
      PutTidy(all, ws, Fold(if w.Some? then w.value else Created(specs[0], now), specs[0], u, now));
      ApplyAllTidy(all, specs[1..], ApplySpec(ws, specs[0], u, now), u, now);
    }
  }

  lemma {:induction false} DeliverTidy(cfg: Config, run: seq<Delivery>, cred: string)
    ensures Tidy(cfg.specs, WindowsOf(Deliver(cfg, EMPTY, run), cred)) && Deliver(cfg, EMPTY, run).terminal == map[]
  {
    if run != [] {
      var n := |run| - 1;
      DeliverTidy(cfg, run[..n], cred);
      ApplyAllTidy(cfg.specs, cfg.specs, WindowsOf(Deliver(cfg, EMPTY, run[..n]), cred), run[n].u, run[n].now);
    }
  }

  /** A negative cutoff, which only a per-window override can have, is never reached. */
  predicate ShareReached(limit: real, cutoff: real, x: real) { cutoff >= 0.0 && x >= (1.0 - cutoff) * limit }

  lemma RemainingAtCutoff(limit: real, x: real, cutoff: real)
    requires limit > 0.0 && x >= 0.0
    ensures Fraction(limit, Clamp(limit, x)) <= cutoff <==> ShareReached(limit, cutoff, x)
  {
    var used := Clamp(limit, x);
    var r := (limit - used) / limit;
    assert r * limit == limit - used;
    assert 0.0 <= r <= 1.0;
    assert r <= cutoff <==> r * limit <= cutoff * limit;
    assert (1.0 - cutoff) * limit == limit - cutoff * limit;
    assert cutoff < 0.0 ==> cutoff * limit < 0.0;
    assert cutoff >= 0.0 ==> cutoff * limit >= 0.0;
  }

  /** Some declared window with a known ceiling has used up its share. */
  ghost predicate ShareUsed(cfg: Config, run: seq<Delivery>, cred: string, kind: string) {
    && Declared(cfg.specs, kind) && SpecOf(cfg.specs, kind).limit > 0.0
    && ShareReached(SpecOf(cfg.specs, kind).limit, CutoffFor(cfg, kind), Sum(cfg.specs, kind, cred, run))
  }

  ghost predicate EverUsed(run: seq<Delivery>, cred: string) { exists i :: 0 <= i < |run| && For(run, i, cred) }

  lemma WindowSpentIff(cfg: Config, run: seq<Delivery>, cred: string, kind: string)
    requires Declared(cfg.specs, kind) && OnePeriod(cfg.specs, kind, cred, run)
    ensures var w := Get(WindowsOf(Deliver(cfg, EMPTY, run), cred), kind);
      && (w.Some? <==> EverUsed(run, cred))
      && (w.Some? ==> w.value.kind == kind && (Spent(cfg, w.value) <==> ShareUsed(cfg, run, cred, kind)))
  {
    WindowHolds(cfg, run, cred, kind);
    var w := Get(WindowsOf(Deliver(cfg, EMPTY, run), cred), kind);
    if w.Some? {
      SpentIffShare(cfg, w.value, Sum(cfg.specs, kind, cred, run));
    }
  }

  lemma WindowHolds(cfg: Config, run: seq<Delivery>, cred: string, kind: string)
    requires Declared(cfg.specs, kind) && OnePeriod(cfg.specs, kind, cred, run)
    ensures var w := Get(WindowsOf(Deliver(cfg, EMPTY, run), cred), kind);
      && (w.Some? <==> EverUsed(run, cred))
      && (w.Some? ==> w.value.kind == kind && w.value.limit == SpecOf(cfg.specs, kind).limit
                      && w.value.remaining == Fraction(w.value.limit, Clamp(w.value.limit, Sum(cfg.specs, kind, cred, run))))
  {
    UsedIsClampedSum(cfg, run, cred, kind);
  }

  lemma SpentIffShare(cfg: Config, w: Window, x: real)
    requires x >= 0.0 && w.remaining == Fraction(w.limit, Clamp(w.limit, x))
    ensures Spent(cfg, w) <==> w.limit > 0.0 && ShareReached(w.limit, CutoffFor(cfg, w.kind), x)
  {
    if w.limit > 0.0 { RemainingAtCutoff(w.limit, x, CutoffFor(cfg, w.kind)); }
  }

  ghost predicate EachPeriodOne(cfg: Config, run: seq<Delivery>, cred: string) {
    forall kind | Declared(cfg.specs, kind) :: OnePeriod(cfg.specs, kind, cred, run)
  }

  /** Within one period the filter blocks a credential exactly when it has been used and some limited window's sum
      reached the share before its cutoff. */
  lemma BlocksExactlyAtCutoff(cfg: Config, run: seq<Delivery>, cred: string)
    requires cred != "" && EachPeriodOne(cfg, run, cred)
    ensures Blocked(cfg, Deliver(cfg, EMPTY, run), cred)
      <==> EverUsed(run, cred) && exists kind :: ShareUsed(cfg, run, cred, kind)
  {
    var ws := WindowsOf(Deliver(cfg, EMPTY, run), cred);
    DeliverTidy(cfg, run, cred);
    if i :| 0 <= i < |ws| && Spent(cfg, ws[i]) {
      assert Get(ws, ws[i].kind) == Some(ws[i]);
      WindowSpentIff(cfg, run, cred, ws[i].kind);
    }
    if EverUsed(run, cred) {
      if kind :| ShareUsed(cfg, run, cred, kind) {
        WindowSpentIff(cfg, run, cred, kind);
        assert Spent(cfg, ws[Find(ws, kind)]);
      }
    }
  }

  // --- retry hints ---

  lemma {:induction false} HintSticksThroughApply(specs: seq<Spec>, ws: seq<Window>, u: Usage, now: Time, kind: string)
    requires Get(ws, kind).Some? && Get(ws, kind).value.source.RetryHint?
    ensures var w, w' := Get(ws, kind).value, Get(ApplyAll(specs, ws, u, now), kind);
      w'.Some? && w'.value.source.RetryHint? && w'.value.limit == w.limit && w'.value.remaining == w.remaining
    decreases |specs|
  {
    if specs != [] {
      var w := Get(ws, specs[0].kind);
      GetPut(ws, Fold(if w.Some? then w.value else Created(specs[0], now), specs[0], u, now), kind);
      HintSticksThroughApply(specs[1..], ApplySpec(ws, specs[0], u, now), u, now, kind);
    }
  }

  lemma HintSets(s: State, cred: string, kind: string, resetsAt: Time)
    requires cred != ""
    requires Get(WindowsOf(s, cred), kind).Some? ==> !Get(WindowsOf(s, cred), kind).value.source.Header?
    ensures var before := Get(WindowsOf(s, cred), kind);
      Get(WindowsOf(Hinted(s, cred, kind, resetsAt), cred), kind)
      == Some((if before.Some? then before.value else Window(kind, 0.0, 0.0, 0.0, None, LocalCounter))
               .(resetsAt := Some(resetsAt), remaining := 0.0, source := RetryHint))
  {
    var ws := WindowsOf(s, cred);
    var w := Get(ws, kind);
    var base := if w.Some? then w.value else Window(kind, 0.0, 0.0, 0.0, None, LocalCounter);
    GetPut(ws, base.(resetsAt := Some(resetsAt), remaining := 0.0, source := RetryHint), kind);
  }

  /** A hinted window of this limit. */
  predicate Hinting(w: Option<Window>, kind: string, limit: real) {
    w.Some? && w.value.kind == kind && w.value.source.RetryHint? && w.value.remaining == 0.0 && w.value.limit == limit
  }

  lemma {:induction false} HintSticks(cfg: Config, s: State, cred: string, kind: string, limit: real, run: seq<Delivery>)
    requires Hinting(Get(WindowsOf(s, cred), kind), kind, limit)
    ensures Hinting(Get(WindowsOf(Deliver(cfg, s, run), cred), kind), kind, limit)
  {
    if run != [] {
      var n := |run| - 1;
      HintSticks(cfg, s, cred, kind, limit, run[..n]);
      HintSticksThroughApply(cfg.specs, WindowsOf(Deliver(cfg, s, run[..n]), cred), run[n].u, run[n].now, kind);
    }
  }

  /** A retry hint outlives its own reset: no later delivery, at whatever time, restores the window, so a credential
      blocked by one stays blocked. A hint for a window not seen before has no ceiling and blocks nothing. */
  lemma HintOutlivesReset(cfg: Config, s: State, cred: string, kind: string, resetsAt: Time, run: seq<Delivery>)
    requires cred != ""
    requires Get(WindowsOf(s, cred), kind).Some? ==> !Get(WindowsOf(s, cred), kind).value.source.Header?
    ensures var before := Get(WindowsOf(s, cred), kind);
      var w := Get(WindowsOf(Deliver(cfg, Hinted(s, cred, kind, resetsAt), run), cred), kind);
      w.Some? && (Spent(cfg, w.value) <==> before.Some? && before.value.limit > 0.0 && CutoffFor(cfg, kind) >= 0.0)
  {
    var before := Get(WindowsOf(s, cred), kind);
    HintSets(s, cred, kind, resetsAt);
    HintSticks(cfg, Hinted(s, cred, kind, resetsAt), cred, kind, if before.Some? then before.value.limit else 0.0, run);
  }

  /** A hint leaves alone every other window and every other credential, and its own window when a header owns that. */
  lemma HintTouchesOnly(s: State, cred: string, kind: string, resetsAt: Time, other: string, window: string)
    requires other != cred || window != kind || (Get(WindowsOf(s, cred), kind).Some?
                                                 && Get(WindowsOf(s, cred), kind).value.source.Header?)
    ensures Get(WindowsOf(Hinted(s, cred, kind, resetsAt), other), window) == Get(WindowsOf(s, other), window)
    ensures Hinted(s, cred, kind, resetsAt).terminal == s.terminal && Hinted(s, cred, kind, resetsAt).applied == s.applied
  {
    var w := Get(WindowsOf(s, cred), kind);
    var base := if w.Some? then w.value else Window(kind, 0.0, 0.0, 0.0, None, LocalCounter);
    GetPut(WindowsOf(s, cred), base, window);
    GetPut(WindowsOf(s, cred), base.(resetsAt := Some(resetsAt), remaining := 0.0, source := RetryHint), window);
  }

  // --- headers ---

  /** The last header for the window, if any. */
  function LastHeader(hws: seq<Window>, kind: string): Option<Window> {
    if hws == [] then None
    else
      var later := LastHeader(hws[1..], kind);
      if later.Some? then later else if hws[0].kind == kind then Some(hws[0]) else None
  }

  lemma {:induction false} HeadersOverwrite(ws: seq<Window>, hws: seq<Window>, kind: string)
    ensures Get(HeadersApplied(ws, hws), kind)
         == if LastHeader(hws, kind).Some? then Some(LastHeader(hws, kind).value.(source := Header)) else Get(ws, kind)
    decreases |hws|
  {
    if hws != [] {
      GetPut(ws, hws[0].(source := Header), kind);
      HeadersOverwrite(HeaderApplied(ws, hws[0]), hws[1..], kind);
    }
  }

  /** The headers of one response lift a hint exactly when one of them is for its window; the window is then what the
      last of these says. */
  lemma HeaderLiftsHint(cfg: Config, ws: seq<Window>, hws: seq<Window>, kind: string)
    requires Get(ws, kind).Some? && Get(ws, kind).value.source.RetryHint?
    ensures var w := Get(HeadersApplied(ws, hws), kind);
      && w.Some?
      && (!w.value.source.RetryHint? <==> LastHeader(hws, kind).Some?)
      && (LastHeader(hws, kind).Some? ==> w.value == LastHeader(hws, kind).value.(source := Header))
      && (LastHeader(hws, kind).None? ==> w == Get(ws, kind))
  {
    HeadersOverwrite(ws, hws, kind);
  }
}
