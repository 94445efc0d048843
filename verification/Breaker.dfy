/** The breaker over all its circuits (internal/breaker/breaker.go): the key map, the fan-out over a candidate and the
    reservation with rollback. `Allow` is one step. */
module Breaker {
  import opened BreakerCircuit

  datatype Level = ProviderLevel | CredentialLevel | ModelLevel

  datatype Key = Key(level: Level, provider: string, credential: string, model: string)

  datatype Candidate = Candidate(provider: string, model: string, credential: string)

  type Circuits = map<Key, KeyState>

  /** Reading i of the clock during one call; reading i of the jitter source. */
  type Clock = nat -> Time
  type Jitters = nat -> (Duration -> Duration)

  function KeyFor(c: Candidate, level: Level): Key {
    match level
    case ProviderLevel => Key(level, c.provider, "", "")
    case CredentialLevel => Key(level, c.provider, c.credential, "")
    case ModelLevel => Key(level, c.provider, "", c.model)
  }

  function KeysFor(c: Candidate, scope: Scope): seq<Key> {
    match scope
    case Credential => if c.credential == "" then [] else [KeyFor(c, CredentialLevel)]
    case Provider => [KeyFor(c, ProviderLevel)] + (if c.model != "" then [KeyFor(c, ModelLevel)] else [])
    case _ => []
  }

  function AllKeysFor(c: Candidate): seq<Key> {
    [KeyFor(c, ProviderLevel)]
    + (if c.model != "" then [KeyFor(c, ModelLevel)] else [])
    + (if c.credential != "" then [KeyFor(c, CredentialLevel)] else [])
  }

  predicate Distinct(ks: seq<Key>) { forall i, j :: 0 <= i < j < |ks| ==> ks[i] != ks[j] }

  lemma CandidateKeysDistinct(c: Candidate, scope: Scope)
    ensures Distinct(AllKeysFor(c)) && Distinct(KeysFor(c, scope)) && |AllKeysFor(c)| <= 3 && |KeysFor(c, scope)| <= 2
  {
  }

  function At(m: Circuits, k: Key): KeyState { if k in m then m[k] else FRESH }

  lemma RecordedWhenSynced(cfg: Config, ks: KeyState, o: Outcome, now: Time, jitter: Duration -> Duration)
    ensures Recorded(cfg, Transition(ks, now), o, now, jitter) == Recorded(cfg, ks, o, now, jitter)
  {
  }

  lemma Overwrite(m: Circuits, k: Key, a: KeyState, b: KeyState)
    ensures m[k := a][k := b] == m[k := b]
  {
  }

  // --- calls, lazily and eagerly ---

  /** What the eager automaton does on its own as time passes. */
  function TickAll(m: Circuits, now: Time): Circuits { map k | k in m :: Transition(m[k], now) }

  /** Reading the clock for key k: the breaker brings only k up to date, the eager automaton everything. */
  function Sync(eager: bool, m: Circuits, k: Key, now: Time): Circuits {
    (if eager then TickAll(m, now) else m)[k := Transition(At(m, k), now)]
  }

  function ReleaseFrom(m: Circuits, ks: seq<Key>, j: nat, n: nat): Circuits
    requires n <= |ks|
    decreases n - j
  {
    if j >= n then m else ReleaseFrom(m[ks[j] := Released(At(m, ks[j]))], ks, j + 1, n)
  }

  /** Reserve key i and the following ones; the first refusal releases those before it. */
  function AllowFrom(eager: bool, m: Circuits, ks: seq<Key>, clock: Clock, i: nat): (Circuits, bool)
    requires i <= |ks|
    decreases |ks| - i
  {
    if i == |ks| then (m, true)
    else
      var s := Sync(eager, m, ks[i], clock(i));
      if Admits(s[ks[i]]) then AllowFrom(eager, s[ks[i] := Reserved(s[ks[i]])], ks, clock, i + 1)
      else (ReleaseFrom(s, ks, 0, i), false)
  }

  lemma AllowUnfold(cfg: Config, m: Circuits, ks: seq<Key>, clock: Clock, i: nat)
    requires i < |ks|
    ensures var r := Exec(false, cfg, m, AllowKey(ks[i], clock(i)));
      AllowFrom(false, m, ks, clock, i)
      == if r.1 == Says(true) then AllowFrom(false, r.0, ks, clock, i + 1) else (ReleaseFrom(r.0, ks, 0, i), false)
  {
  }

  function RecordOne(eager: bool, cfg: Config, m: Circuits, k: Key, o: Outcome, now: Time, jitter: Duration -> Duration)
    : Circuits
  {
    var s := Sync(eager, m, k, now);
    s[k := Recorded(cfg, s[k], o, now, jitter)]
  }

  function RecordFrom(eager: bool, cfg: Config, m: Circuits, ks: seq<Key>, o: Outcome, clock: Clock, js: Jitters, i: nat)
    : Circuits
    requires i <= |ks|
    decreases |ks| - i
  {
    if i == |ks| then m
    else RecordFrom(eager, cfg, RecordOne(eager, cfg, m, ks[i], o, clock(i), js(i)), ks, o, clock, js, i + 1)
  }

  function RecordKeys(c: Candidate, o: Outcome): seq<Key> { if o.success then AllKeysFor(c) else KeysFor(c, o.scope) }

  function RecordOutcome(o: Outcome): Outcome { if o.success then SUCCESS else o }

  datatype Call =
    | StateOf(k: Key, now: Time)
    | AllowKey(k: Key, now: Time)
    | RecordKey(k: Key, o: Outcome, now: Time, jitter: Duration -> Duration)
    | Clear(k: Key)
    | Allow(c: Candidate, clock: Clock)
    | Record(c: Candidate, o: Outcome, clock: Clock, js: Jitters)
    | Tick(now: Time)

  datatype Answer = Shows(status: Status) | Says(ok: bool) | Silent

  /** One call. `Tick` is not a call of the breaker: only the eager automaton acts on it. */
  function Exec(eager: bool, cfg: Config, m: Circuits, call: Call): (Circuits, Answer) {
    match call
    case StateOf(k, now) => var s := Sync(eager, m, k, now); (s, Shows(s[k].status))
    case AllowKey(k, now) =>
      var s := Sync(eager, m, k, now);
      if Admits(s[k]) then (s[k := Reserved(s[k])], Says(true)) else (s, Says(false))
    case RecordKey(k, o, now, jitter) => (RecordOne(eager, cfg, m, k, o, now, jitter), Silent)
    case Clear(k) => (m[k := FRESH], Silent)
    case Allow(c, clock) => var r := AllowFrom(eager, m, AllKeysFor(c), clock, 0); (r.0, Says(r.1))
    case Record(c, o, clock, js) =>
      (RecordFrom(eager, cfg, m, RecordKeys(c, o), RecordOutcome(o), clock, js, 0), Silent)
    case Tick(now) => (if eager then TickAll(m, now) else m, Silent)
  }

  // --- the breaker object ---

  class Breaker {
    const cfg: Config
    var keys: map<Key, Circuit>

    ghost predicate Valid()
      reads this
    {
      forall j, k | j in keys && k in keys && keys[j] == keys[k] :: j == k
    }

    ghost predicate Extends(was: map<Key, Circuit>)
      reads this
    {
      forall j | j in was :: j in keys && keys[j] == was[j]
    }

    ghost function View(): Circuits
      reads this, keys.Values
    {
      map k | k in keys :: keys[k].View()
    }

    /** Only the circuit of k changed. */
    twostate lemma OneChanged(k: Key)
      requires k in keys && keys == old(keys)
      requires forall j | j in keys && j != k :: keys[j].View() == old(keys[j].View())
      ensures View() == old(View())[k := keys[k].View()]
    {
    }

    constructor (cfg: Config)
      ensures Valid() && View() == map[] && this.cfg == cfg
    {
      this.cfg := cfg;
      keys := map[];
    }

    method KeyOf(k: Key) returns (ks: Circuit)
      requires Valid()
      modifies this
      ensures Valid() && k in keys && keys[k] == ks
      ensures View() == old(View())[k := At(old(View()), k)]
      ensures fresh(keys.Values - old(keys.Values)) && Extends(old(keys))
    {
      if k in keys {
        ks := keys[k];
      } else {
        ks := new Circuit();
        keys := keys[k := ks];
      }
    }

    method State(k: Key, now: Time) returns (status: Status)
      requires Valid()
      modifies this, keys.Values
      ensures Valid() && fresh(keys.Values - old(keys.Values))
      ensures (View(), Shows(status)) == Exec(false, cfg, old(View()), StateOf(k, now))
    {
      ghost var was := View();
      var ks := KeyOf(k);
      label L:
      ks.TransitionLocked(now);
      OneChanged@L(k);
      Overwrite(was, k, At(was, k), ks.View());
      status := ks.status;
    }

    method AllowKey(k: Key, now: Time) returns (ok: bool)
      requires Valid()
      modifies this, keys.Values
      ensures Valid() && fresh(keys.Values - old(keys.Values))
      ensures (View(), Says(ok)) == Exec(false, cfg, old(View()), Call.AllowKey(k, now))
      ensures k in keys && Extends(old(keys))
    {
      ghost var was := View();
      var ks := KeyOf(k);
      label L:
      ks.TransitionLocked(now);
      ok := ks.ReserveLocked();
      OneChanged@L(k);
      Overwrite(was, k, Transition(At(was, k), now), ks.View());
      Overwrite(was, k, At(was, k), ks.View());
    }

    method RecordKey(k: Key, o: Outcome, now: Time, jitter: Duration -> Duration)
      requires Valid()
      modifies this, keys.Values
      ensures Valid() && fresh(keys.Values - old(keys.Values))
      ensures View() == RecordOne(false, cfg, old(View()), k, o, now, jitter)
    {
      ghost var was := View();
      var ks := KeyOf(k);
      label L:
      RecordedWhenSynced(cfg, ks.View(), o, now, jitter);
      ks.Record(cfg, o, now, jitter);
      OneChanged@L(k);
      Overwrite(was, k, Transition(At(was, k), now), ks.View());
      Overwrite(was, k, At(was, k), ks.View());
    }

    method Clear(k: Key)
      requires Valid()
      modifies this, keys.Values
      ensures Valid() && fresh(keys.Values - old(keys.Values))
      ensures View() == old(View())[k := FRESH]
    {
      ghost var was := View();
      var ks := KeyOf(k);
      label L:
      ks.Clear();
      OneChanged@L(k);
      Overwrite(was, k, At(was, k), ks.View());
    }

    method Record(c: Candidate, o: Outcome, clock: Clock, js: Jitters)
      requires Valid()
      modifies this, keys.Values
      ensures Valid() && fresh(keys.Values - old(keys.Values))
      ensures View() == Exec(false, cfg, old(View()), Call.Record(c, o, clock, js)).0
    {
      var ks := if o.success then AllKeysFor(c) else KeysFor(c, o.scope);
      var out := if o.success then SUCCESS else o;
      for i := 0 to |ks|
        invariant Valid() && fresh(keys.Values - old(keys.Values))
        invariant RecordFrom(false, cfg, View(), ks, out, clock, js, i)
               == RecordFrom(false, cfg, old(View()), ks, out, clock, js, 0)
      {
        RecordKey(ks[i], out, clock(i), js(i));
      }
    }

    method Allow(c: Candidate, clock: Clock) returns (ok: bool)
      requires Valid()
      modifies this, keys.Values
      ensures Valid() && fresh(keys.Values - old(keys.Values))
      ensures (View(), Says(ok)) == Exec(false, cfg, old(View()), Call.Allow(c, clock))
    {
      CandidateKeysDistinct(c, Request);
      ok := ReserveAll(AllKeysFor(c), clock);
    }

    method ReserveAll(all: seq<Key>, clock: Clock) returns (ok: bool)
      requires Valid() && Distinct(all)
      modifies this, keys.Values
      ensures Valid() && fresh(keys.Values - old(keys.Values))
      ensures (View(), ok) == AllowFrom(false, old(View()), all, clock, 0)
    {
      ghost var was := View();
      var reserved: seq<Circuit> := [];
      for i := 0 to |all|
        invariant Valid() && fresh(keys.Values - old(keys.Values))
        invariant |reserved| == i && forall j | 0 <= j < i :: all[j] in keys && reserved[j] == keys[all[j]]
        invariant AllowFrom(false, View(), all, clock, i) == AllowFrom(false, was, all, clock, 0)
      {
        AllowUnfold(cfg, View(), all, clock, i);
        var granted := AllowKey(all[i], clock(i));
        if !granted {
          Rollback(all, reserved);
          return false;
        }
        reserved := reserved + [keys[all[i]]];
      }
      return true;
    }

    method Rollback(all: seq<Key>, reserved: seq<Circuit>)
      requires Valid() && Distinct(all) && |reserved| <= |all|
      requires forall j | 0 <= j < |reserved| :: all[j] in keys && reserved[j] == keys[all[j]]
      modifies reserved
      ensures Valid() && keys == old(keys)
      ensures View() == ReleaseFrom(old(View()), all, 0, |reserved|)
    {
      for j := 0 to |reserved|
        invariant ReleaseFrom(View(), all, j, |reserved|) == ReleaseFrom(old(View()), all, 0, |reserved|)
      {
        label L:
        reserved[j].ReleaseProbe();
        OneChanged@L(all[j]);
      }
    }
  }
}
