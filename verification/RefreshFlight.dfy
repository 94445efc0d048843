/** Single-flight token refresh (internal/app/login.go): read, lock, re-read, exchange, persist, unlock, by any
    number of interleaved callers, with logins and removals writing rows at any moment without the lock. */
module RefreshFlight {
  import LR = LockRegistry

  type Cred = LR.Cred
  type Caller = LR.Caller

  /** A stored credential: its row and the two tokens in the sealed blob. */
  datatype Blob = Blob(id: Cred, access: string, refresh: string)

  /** `intruded` records that a login or removal wrote the row since the re-read. */
  datatype Phase =
    | Snapshot(before: Blob)
    | Locked(before: Blob)
    | Exchanging(before: Blob, after: Blob, intruded: bool)
    | Persisting(before: Blob, after: Blob, result: Blob, intruded: bool)
    | Over

  datatype Exchange = Exchange(caller: Caller, firstRead: string, version: string)

  /** `minted` maps every access token ever issued to the blob it came with; `lost` lists the versions whose
      exchange succeeded but whose result could not be persisted. */
  datatype State = State(lock: LR.State, rows: map<Cred, Blob>, callers: map<Caller, Phase>,
                         minted: map<string, Blob>, log: seq<Exchange>, lost: seq<string>)

  datatype Event =
    | Read(c: Caller, id: Cred) | ReadFails(c: Caller)
    | LockStep(c: Caller, action: LR.Action)
    | Reread(c: Caller) | RereadFails(c: Caller)
    | ExchangeOk(c: Caller, access: string, rotated: bool, token: string) | ExchangeFails(c: Caller)
    | PersistOk(c: Caller) | PersistFails(c: Caller)
    | Login(blob: Blob) | Remove(id: Cred)

  /** The refresh token to store: the new one only when the grant rotated it (section 6 of RFC 6749). */
  function RefreshToStore(kept: string, rotated: bool, token: string): string {
    if rotated && token != "" then token else kept
  }

  predicate Critical(p: Phase) { p.Locked? || p.Exchanging? || p.Persisting? }

  function Intrude(p: Phase, id: Cred): Phase {
    if (p.Exchanging? || p.Persisting?) && p.after.id == id then p.(intruded := true) else p
  }

  function IntrudeAll(callers: map<Caller, Phase>, id: Cred): map<Caller, Phase> {
    map c | c in callers :: Intrude(callers[c], id)
  }

  function Move(s: State, c: Caller, p: Phase): State { s.(callers := s.callers[c := p]) }

  /** The phase a lock operation moves its caller to; `Unlock` is the deferred unlock after the call is over. */
  ghost predicate LockMove(p: Phase, a: LR.Action, p': Phase) {
    match a
    case Begin(id) => p.Snapshot? && id == p.before.id && p' == p
    case Acquire => p.Snapshot? && p' == Locked(p.before)
    case Cancel => p.Snapshot? && p' == Over
    case Unlock => p.Over? && p' == p
    case _ => p' == p
  }

  ghost predicate LockStepped(s: State, c: Caller, a: LR.Action, s': State) {
    && c in s.callers && LR.Step(s.lock, c, a, s'.lock) && c in s'.callers
    && LockMove(s.callers[c], a, s'.callers[c]) && s' == Move(s, c, s'.callers[c]).(lock := s'.lock)
  }

  ghost predicate Step(s: State, ev: Event, s': State) {
    match ev
    case Read(c, id) =>
      c !in s.callers && c !in s.lock.sessions &&
      s' == Move(s, c, if id in s.rows && s.rows[id].refresh != "" then Snapshot(s.rows[id]) else Over)
    case ReadFails(c) => c !in s.callers && c !in s.lock.sessions && s' == Move(s, c, Over)
    case LockStep(c, a) => LockStepped(s, c, a, s')
    case Reread(c) =>
      c in s.callers && s.callers[c].Locked? &&
      var before := s.callers[c].before;
      s' == Move(s, c, if before.id in s.rows && s.rows[before.id].access == before.access
                       then Exchanging(before, s.rows[before.id], false) else Over)
    case RereadFails(c) => c in s.callers && s.callers[c].Locked? && s' == Move(s, c, Over)
    case ExchangeOk(c, access, rotated, token) =>
      c in s.callers && s.callers[c].Exchanging? && access !in s.minted &&
      var p := s.callers[c];
      var issued := Blob(p.after.id, access, RefreshToStore(p.after.refresh, rotated, token));
      s' == Move(s, c, Persisting(p.before, p.after, issued, p.intruded)).(
        minted := s.minted[access := issued],
        log := s.log + [Exchange(c, p.before.access, p.after.access)])
    case ExchangeFails(c) => c in s.callers && s.callers[c].Exchanging? && s' == Move(s, c, Over)
    case PersistOk(c) =>
      c in s.callers && s.callers[c].Persisting? &&
      s' == Move(s, c, Over).(rows := s.rows[s.callers[c].result.id := s.callers[c].result])
    case PersistFails(c) =>
      c in s.callers && s.callers[c].Persisting? &&
      s' == Move(s, c, Over).(lost := s.lost + [s.callers[c].after.access])
    case Login(b) =>
      b.access !in s.minted &&
      s' == s.(rows := s.rows[b.id := b], minted := s.minted[b.access := b], callers := IntrudeAll(s.callers, b.id))
    case Remove(id) => s' == s.(rows := s.rows - {id}, callers := IntrudeAll(s.callers, id))
  }

  const INITIAL := State(LR.State(LR.EMPTY, map[]), map[], map[], map[], [], [])

  // --- counting ---

  function Exchanges(log: seq<Exchange>, v: string): nat {
    if log == [] then 0
    else Exchanges(log[..|log| - 1], v) + (if log[|log| - 1].version == v then 1 else 0)
  }

  /** Exchanges made by callers that first read version v. */
  function Caused(log: seq<Exchange>, v: string): nat {
    if log == [] then 0
    else Caused(log[..|log| - 1], v) + (if log[|log| - 1].firstRead == v then 1 else 0)
  }

  function Losses(lost: seq<string>, v: string): nat {
    if lost == [] then 0
    else Losses(lost[..|lost| - 1], v) + (if lost[|lost| - 1] == v then 1 else 0)
  }

  lemma ExchangesAppend(log: seq<Exchange>, e: Exchange, v: string)
    ensures Exchanges(log + [e], v) == Exchanges(log, v) + (if e.version == v then 1 else 0)
  {
    assert (log + [e])[..|log|] == log;
  }

  lemma LossesAppend(lost: seq<string>, x: string, v: string)
    ensures Losses(lost + [x], v) == Losses(lost, v) + (if x == v then 1 else 0)
  {
    assert (lost + [x])[..|lost|] == lost;
  }

  // --- the invariant ---

  /** A caller in its critical section holds the lock of its credential; one that has not got it is at most waiting. */
  ghost predicate LockDiscipline(s: State) {
    && LR.Inv(s.lock)
    && s.lock.sessions.Keys <= s.callers.Keys
    && forall c | c in s.callers :: Gripped(s, c)
  }

  ghost predicate Minted(s: State, b: Blob) { b.access in s.minted && s.minted[b.access] == b }

  /** Every blob in sight was issued as it is, and an access token identifies its blob. */
  ghost predicate Provenance(s: State) {
    && (forall id | id in s.rows :: s.rows[id].id == id && Minted(s, s.rows[id]))
    && (forall a | a in s.minted :: s.minted[a].access == a)
    && (forall c | c in s.callers && !s.callers[c].Over? :: Minted(s, s.callers[c].before) && s.callers[c].before.refresh != "")
    && (forall c | c in s.callers && (s.callers[c].Exchanging? || s.callers[c].Persisting?) ::
          s.callers[c].after == s.callers[c].before)
    && (forall c | c in s.callers && s.callers[c].Persisting? ::
          Minted(s, s.callers[c].result) && s.callers[c].result.id == s.callers[c].after.id)
  }

  /** Without a login or removal since the re-read, the row still is what was re-read. */
  ghost predicate Undisturbed(s: State) {
    forall c | c in s.callers && (s.callers[c].Exchanging? || s.callers[c].Persisting?) && !s.callers[c].intruded ::
      s.callers[c].after.id in s.rows && s.rows[s.callers[c].after.id] == s.callers[c].after
  }

  ghost predicate Pending(s: State, v: string) {
    exists c :: c in s.callers && s.callers[c].Persisting? && s.callers[c].result.access == v
  }

  /** Issued, but never exchanged, in no row and in nobody's snapshot. */
  ghost predicate Unseen(s: State, v: string) {
    && v in s.minted && Exchanges(s.log, v) == 0
    && (forall id | id in s.rows :: s.rows[id].access != v)
    && (forall c | c in s.callers && !s.callers[c].Over? :: s.callers[c].before.access != v)
  }

  /** A result not yet persisted is known to nobody else, and was never exchanged. */
  ghost predicate PendingUnseen(s: State) {
    && (forall c, d | c in s.callers && d in s.callers && s.callers[c].Persisting? && s.callers[d].Persisting?
                      && s.callers[c].result.access == s.callers[d].result.access :: c == d)
    && (forall v | Pending(s, v) :: Unseen(s, v))
  }

  /** v can still be exchanged: it is stored and not being replaced, or its exchange is under way. */
  ghost predicate Live(s: State, v: string) {
    || (exists id :: id in s.rows && s.rows[id].access == v && !Replacing(s, v))
    || (exists c :: c in s.callers && s.callers[c].Exchanging? && s.callers[c].after.access == v)
  }

  ghost predicate Replacing(s: State, v: string) {
    exists c :: c in s.callers && s.callers[c].Persisting? && s.callers[c].after.access == v
  }

  ghost predicate Budget(s: State) {
    && (forall v :: Exchanges(s.log, v) + (if Live(s, v) then 1 else 0) <= 1 + Losses(s.lost, v))
    && (forall v | v !in s.minted :: Exchanges(s.log, v) == 0)
    && (forall e | e in s.log :: e.firstRead == e.version)
  }

  ghost predicate Inv(s: State) {
    LockDiscipline(s) && Provenance(s) && Undisturbed(s) && PendingUnseen(s) && Budget(s)
  }

  /** Two callers in the critical section of one credential are the same caller. */
  lemma OneCritical(s: State, c: Caller, d: Caller)
    requires LockDiscipline(s) && c in s.callers && d in s.callers
    requires Critical(s.callers[c]) && Critical(s.callers[d]) && s.callers[c].before.id == s.callers[d].before.id
    ensures c == d
  {
    var e := s.lock.sessions[c].e;
    assert LR.Holds(s.lock, c, e);
    assert s.lock.reg.table[s.lock.sessions[c].id] == e;
    assert LR.Holds(s.lock, d, e);
  }

  // --- lock discipline ---

  lemma KeepsLockDiscipline(s: State, ev: Event, s': State)
    requires LockDiscipline(s) && Step(s, ev, s')
    ensures LockDiscipline(s')
  {
    if ev.LockStep? {
      LockStepKeepsDiscipline(s, ev.c, ev.action, s');
    } else {
      OthersKeepGrip(s, ev, s');
    }
  }

  /** No caller newly entered its critical section, or its wait for the lock, without the lock moving. */
  ghost predicate SameGrip(s: State, s': State) {
    && s'.lock == s.lock && s.callers.Keys <= s'.callers.Keys
    && forall c | c in s'.callers ::
         && (Critical(s'.callers[c]) ==>
               c in s.callers && Critical(s.callers[c]) && s'.callers[c].before == s.callers[c].before)
         && (s'.callers[c].Snapshot? && c in s.lock.sessions ==> c in s.callers && s.callers[c] == s'.callers[c])
  }

  lemma OthersKeepGrip(s: State, ev: Event, s': State)
    requires Step(s, ev, s') && !ev.LockStep?
    ensures SameGrip(s, s')
  {
  }

  lemma LockStepKeepsDiscipline(s: State, c: Caller, a: LR.Action, s': State)
    requires LockDiscipline(s) && LockStepped(s, c, a, s')
    ensures LockDiscipline(s')
  {
    LR.StepKeepsInv(s.lock, c, a, s'.lock);
    OnlyOwnSession(s.lock, c, a, s'.lock);
    OwnGrip(s, c, a, s');
    forall d | d in s'.callers && d != c ensures Gripped(s', d) {
      assert Gripped(s, d);
    }
  }

  /** What LockDiscipline says of one caller. */
  ghost predicate Gripped(s: State, c: Caller)
    requires c in s.callers
  {
    && (Critical(s.callers[c]) ==>
          c in s.lock.sessions && s.lock.sessions[c].Holding? && s.lock.sessions[c].id == s.callers[c].before.id)
    && (s.callers[c].Snapshot? && c in s.lock.sessions ==>
          s.lock.sessions[c].Waiting? && s.lock.sessions[c].id == s.callers[c].before.id)
  }

  lemma OnlyOwnSession(s: LR.State, c: Caller, a: LR.Action, s': LR.State)
    requires LR.Step(s, c, a, s')
    ensures s'.sessions.Keys <= s.sessions.Keys + {c}
    ensures forall d | d != c :: (d in s'.sessions <==> d in s.sessions) && (d in s.sessions ==> s'.sessions[d] == s.sessions[d])
  {
  }

  /** The caller whose lock operation it is keeps its part of the discipline. */
  lemma OwnGrip(s: State, c: Caller, a: LR.Action, s': State)
    requires c in s.callers && Gripped(s, c) && LockStepped(s, c, a, s')
    ensures Gripped(s', c)
  {
  }

  /** Only caller c's phase changed, and the new phase brings in no blob that was not in sight. */
  ghost predicate Calm(s: State, c: Caller, s': State) {
    && c in s'.callers && s'.callers == s.callers[c := s'.callers[c]]
    && s'.rows == s.rows && s'.minted == s.minted && s'.log == s.log && s'.lost == s.lost
    && (c in s.callers ==> !s.callers[c].Persisting? || s'.callers[c] == s.callers[c])
    && match s'.callers[c]
       case Over => true
       case Snapshot(b) => (c in s.callers && s.callers[c] == Snapshot(b))
                           || (b.refresh != "" && b.id in s.rows && s.rows[b.id] == b)
       case Locked(b) => c in s.callers && (s.callers[c] == Snapshot(b) || s.callers[c] == Locked(b))
       case Exchanging(b, a, i) =>
         c in s.callers && (s.callers[c] == s'.callers[c]
                            || (s.callers[c] == Locked(b) && a.id == b.id && a.id in s.rows && s.rows[a.id] == a
                                && a.access == b.access && !i))
       case Persisting(_, _, _, _) => c in s.callers && s.callers[c] == s'.callers[c]
  }

  lemma CalmEvents(s: State, ev: Event, s': State)
    requires Provenance(s) && Step(s, ev, s')
    requires ev.Read? || ev.ReadFails? || ev.LockStep? || ev.Reread? || ev.RereadFails? || ev.ExchangeFails?
    ensures Calm(s, ev.c, s')
  {
  }

  lemma CalmProvenance(s: State, c: Caller, s': State)
    requires Provenance(s) && Calm(s, c, s')
    ensures Provenance(s')
  {
  }

  lemma CalmUndisturbed(s: State, c: Caller, s': State)
    requires Undisturbed(s) && Calm(s, c, s')
    ensures Undisturbed(s')
  {
  }

  lemma CalmPending(s: State, c: Caller, s': State)
    requires Provenance(s) && PendingUnseen(s) && Calm(s, c, s')
    ensures PendingUnseen(s')
  {
    forall v ensures Pending(s', v) <==> Pending(s, v) {
      if Pending(s', v) {
        var d :| d in s'.callers && s'.callers[d].Persisting? && s'.callers[d].result.access == v;
        assert s.callers[d] == s'.callers[d];
      }
      if Pending(s, v) {
        var d :| d in s.callers && s.callers[d].Persisting? && s.callers[d].result.access == v;
        assert s'.callers[d] == s.callers[d];
      }
    }
  }

  /** A re-read keeps its version live: while it holds the lock nobody is replacing that version. */
  lemma CalmBudget(s: State, c: Caller, s': State)
    requires LockDiscipline(s) && Provenance(s) && Budget(s) && Calm(s, c, s')
    ensures Budget(s')
  {
    forall v | Live(s', v) ensures Live(s, v) {
      CalmLive(s, c, s', v);
    }
  }

  lemma CalmLive(s: State, c: Caller, s': State, v: string)
    requires LockDiscipline(s) && Provenance(s) && Calm(s, c, s') && Live(s', v)
    ensures Live(s, v)
  {
    if d :| d in s'.callers && s'.callers[d].Exchanging? && s'.callers[d].after.access == v {
      if d == c && s.callers[c].Locked? {
        assert v == s.rows[s'.callers[c].after.id].access;
        forall f | f in s.callers && s.callers[f].Persisting? && s.callers[f].after.access == v ensures f == c {
          assert s.minted[v].id == s.callers[f].after.id == s.callers[c].before.id;
          OneCritical(s, c, f);
        }
        assert !Replacing(s, v);
      } else {
        assert s.callers[d] == s'.callers[d];
      }
    } else {
      assert !Replacing(s', v);
      forall f | f in s.callers && s.callers[f].Persisting? ensures s.callers[f].after.access != v {
        assert s'.callers[f] == s.callers[f];
      }
    }
  }

  // --- exchange ---

  lemma ExchangeOkProvenance(s: State, ev: Event, s': State)
    requires Provenance(s) && Step(s, ev, s') && ev.ExchangeOk?
    ensures Provenance(s')
  {
    var c := ev.c;
    assert s'.callers[c].result.access == ev.access;
    forall d | d in s'.callers && !s'.callers[d].Over? && d != c ensures s'.callers[d] == s.callers[d] {}
  }

  lemma ExchangeOkUndisturbed(s: State, ev: Event, s': State)
    requires Undisturbed(s) && Step(s, ev, s') && ev.ExchangeOk?
    ensures Undisturbed(s')
  {
  }

  lemma ExchangeOkPending(s: State, ev: Event, s': State)
    requires Provenance(s) && PendingUnseen(s) && Budget(s) && Step(s, ev, s') && ev.ExchangeOk?
    ensures PendingUnseen(s')
  {
    var c := ev.c;
    assert s'.callers[c].result.access == ev.access && s'.callers[c].before == s.callers[c].before;
    forall w | Pending(s', w) ensures Unseen(s', w) {
      StillPending(s, s', c, w);
      ExchangesAppend(s.log, Exchange(c, s.callers[c].before.access, s.callers[c].after.access), w);
    }
    forall d | d in s'.callers && s'.callers[d].Persisting? && d != c ensures s'.callers[d].result.access != ev.access {
      assert s'.callers[d] == s.callers[d];
    }
  }

  /** A result pending after caller c moved on, other than c's own, was pending before. */
  lemma StillPending(s: State, s': State, c: Caller, w: string)
    requires c in s.callers && c in s'.callers && s'.callers == s.callers[c := s'.callers[c]]
    ensures Pending(s', w) ==> Pending(s, w) || (s'.callers[c].Persisting? && s'.callers[c].result.access == w)
  {
    if Pending(s', w) {
      var d :| d in s'.callers && s'.callers[d].Persisting? && s'.callers[d].result.access == w;
      assert d != c ==> s.callers[d] == s'.callers[d];
    }
  }

  /** The version just exchanged cannot be exchanged again while its replacement is being persisted. */
  lemma ExchangedNotLive(s: State, ev: Event, s': State)
    requires LockDiscipline(s) && Provenance(s) && Step(s, ev, s') && ev.ExchangeOk?
    ensures Live(s, s.callers[ev.c].after.access) && !Live(s', s.callers[ev.c].after.access)
  {
    var c := ev.c;
    var v := s.callers[c].after.access;
    assert s'.callers[c].Persisting? && s'.callers[c].after.access == v;
    forall d | d in s'.callers && s'.callers[d].Exchanging? ensures s'.callers[d].after.access != v {
      if s.callers[d].after.access == v { OneCritical(s, c, d); }
    }
  }

  lemma ExchangeOkBudget(s: State, ev: Event, s': State)
    requires LockDiscipline(s) && Provenance(s) && Budget(s) && Step(s, ev, s') && ev.ExchangeOk?
    ensures Budget(s')
  {
    var c := ev.c;
    var v := s.callers[c].after.access;
    ExchangedNotLive(s, ev, s');
    assert Minted(s, s.callers[c].after);
    forall w ensures Exchanges(s'.log, w) + (if Live(s', w) then 1 else 0) <= 1 + Losses(s'.lost, w)
             ensures w !in s'.minted ==> Exchanges(s'.log, w) == 0
    {
      ExchangesAppend(s.log, Exchange(c, s.callers[c].before.access, v), w);
      if w != v && Live(s', w) { LiveStays(s, s', c, w); }
    }
  }

  /** Away from the version a caller is working on, what was not live does not become live. */
  lemma LiveStays(s: State, s': State, c: Caller, w: string)
    requires c in s.callers && c in s'.callers
    requires s.rows == s'.rows && s'.callers == s.callers[c := s'.callers[c]]
    requires !s'.callers[c].Exchanging?
    requires s.callers[c].Persisting? ==> s.callers[c].after.access != w
    requires Live(s', w)
    ensures Live(s, w)
  {
    if d :| d in s'.callers && s'.callers[d].Exchanging? && s'.callers[d].after.access == w {
      assert s.callers[d] == s'.callers[d];
    } else {
      forall f | f in s.callers && s.callers[f].Persisting? ensures s.callers[f].after.access != w {
        assert f != c ==> s'.callers[f] == s.callers[f];
      }
    }
  }

  // --- persist ---

  /** The caller's call is over; its row is the result, or unchanged. */
  lemma PersistProvenance(s: State, ev: Event, s': State)
    requires Provenance(s) && Step(s, ev, s') && (ev.PersistOk? || ev.PersistFails?)
    ensures Provenance(s')
  {
  }

  lemma PersistUndisturbed(s: State, ev: Event, s': State)
    requires LockDiscipline(s) && Provenance(s) && Undisturbed(s)
    requires Step(s, ev, s') && (ev.PersistOk? || ev.PersistFails?)
    ensures Undisturbed(s')
  {
    var c := ev.c;
    forall d | d in s'.callers && (s'.callers[d].Exchanging? || s'.callers[d].Persisting?)
      ensures s'.callers[d].after.id != s.callers[c].result.id
    {
      assert s.callers[d] == s'.callers[d];
      if s.callers[d].before.id == s.callers[c].before.id { OneCritical(s, c, d); }
    }
  }

  lemma PersistPending(s: State, ev: Event, s': State)
    requires PendingUnseen(s) && Step(s, ev, s') && (ev.PersistOk? || ev.PersistFails?)
    ensures PendingUnseen(s')
  {
    var c := ev.c;
    forall w | Pending(s', w) ensures Pending(s, w) && w != s.callers[c].result.access {
      var d :| d in s'.callers && s'.callers[d].Persisting? && s'.callers[d].result.access == w;
      assert s.callers[d] == s'.callers[d];
    }
  }

  lemma PersistOkLive(s: State, ev: Event, s': State, w: string)
    requires Provenance(s) && Step(s, ev, s') && ev.PersistOk?
    requires w != s.callers[ev.c].result.access && Live(s', w)
    ensures Live(s, w)
  {
    var c := ev.c;
    var v, r := s.callers[c].after.access, s.callers[c].result;
    if d :| d in s'.callers && s'.callers[d].Exchanging? && s'.callers[d].after.access == w {
      assert s.callers[d] == s'.callers[d];
    } else {
      var id :| id in s'.rows && s'.rows[id].access == w;
      assert id in s.rows && s.rows[id].access == w && id != r.id;
      assert w != v;
      forall f | f in s.callers && s.callers[f].Persisting? ensures s.callers[f].after.access != w {
        assert f != c ==> s'.callers[f] == s.callers[f];
      }
    }
  }

  lemma PersistOkBudget(s: State, ev: Event, s': State)
    requires Provenance(s) && PendingUnseen(s) && Budget(s) && Step(s, ev, s') && ev.PersistOk?
    ensures Budget(s')
  {
    var r := s.callers[ev.c].result;
    assert Pending(s, r.access);
    forall w ensures Exchanges(s'.log, w) + (if Live(s', w) then 1 else 0) <= 1 + Losses(s'.lost, w) {
      if w != r.access && Live(s', w) { PersistOkLive(s, ev, s', w); }
    }
  }

  lemma PersistFailsBudget(s: State, ev: Event, s': State)
    requires Budget(s) && Step(s, ev, s') && ev.PersistFails?
    ensures Budget(s')
  {
    var v := s.callers[ev.c].after.access;
    forall w ensures Losses(s'.lost, w) == Losses(s.lost, w) + (if w == v then 1 else 0) {
      LossesAppend(s.lost, v, w);
    }
    forall w | w != v && Live(s', w) ensures Live(s, w) {
      LiveStays(s, s', ev.c, w);
    }
  }

  // --- logins and removals ---

  lemma WriteProvenance(s: State, ev: Event, s': State)
    requires Provenance(s) && Step(s, ev, s') && (ev.Login? || ev.Remove?)
    ensures Provenance(s')
  {
    forall c | c in s'.callers && !s'.callers[c].Over? ensures CallerProven(s', s'.callers[c]) {
      IntrudedPhase(s.callers[c], if ev.Login? then ev.blob.id else ev.id);
      assert CallerProven(s, s.callers[c]);
    }
  }

  /** What Provenance says of one caller. */
  ghost predicate CallerProven(s: State, p: Phase) {
    && (!p.Over? ==> Minted(s, p.before) && p.before.refresh != "")
    && (p.Exchanging? || p.Persisting? ==> p.after == p.before)
    && (p.Persisting? ==> Minted(s, p.result) && p.result.id == p.after.id)
  }

  /** A login or removal changes nothing of a caller but its mark. */
  lemma IntrudedPhase(p: Phase, id: Cred)
    ensures var q := Intrude(p, id);
      && q.Over? == p.Over? && q.Exchanging? == p.Exchanging? && q.Persisting? == p.Persisting?
      && (!p.Over? ==> q.before == p.before)
      && (p.Exchanging? || p.Persisting? ==> q.after == p.after)
      && (p.Persisting? ==> q.result == p.result)
  {
  }

  lemma WriteUndisturbed(s: State, ev: Event, s': State)
    requires Undisturbed(s) && Step(s, ev, s') && (ev.Login? || ev.Remove?)
    ensures Undisturbed(s')
  {
    var id := if ev.Login? then ev.blob.id else ev.id;
    forall c | c in s'.callers && (s'.callers[c].Exchanging? || s'.callers[c].Persisting?) && !s'.callers[c].intruded
      ensures s'.callers[c].after.id in s'.rows && s'.rows[s'.callers[c].after.id] == s'.callers[c].after
    {
      assert s'.callers[c] == s.callers[c] && s.callers[c].after.id != id;
    }
  }

  lemma WritePending(s: State, ev: Event, s': State)
    requires PendingUnseen(s) && Step(s, ev, s') && (ev.Login? || ev.Remove?)
    ensures PendingUnseen(s')
  {
    forall c | c in s'.callers
      ensures s'.callers[c].Persisting? == s.callers[c].Persisting?
      ensures s'.callers[c].Persisting? ==> s'.callers[c].result == s.callers[c].result
      ensures s'.callers[c].Over? == s.callers[c].Over?
      ensures !s'.callers[c].Over? ==> s'.callers[c].before == s.callers[c].before
    {
    }
    forall w | Pending(s', w) ensures Pending(s, w) {
      var d :| d in s'.callers && s'.callers[d].Persisting? && s'.callers[d].result.access == w;
      assert s.callers[d].Persisting? && s.callers[d].result.access == w;
    }
  }

  lemma WriteLive(s: State, ev: Event, s': State, w: string)
    requires Step(s, ev, s') && (ev.Login? || ev.Remove?) && w in s.minted && Live(s', w)
    ensures Live(s, w)
  {
    forall f | f in s.callers && !s.callers[f].Over?
      ensures s'.callers[f].Persisting? == s.callers[f].Persisting?
      ensures s'.callers[f].Exchanging? == s.callers[f].Exchanging?
      ensures s.callers[f].Persisting? || s.callers[f].Exchanging? ==> s'.callers[f].after == s.callers[f].after
    {
    }
    if d :| d in s'.callers && s'.callers[d].Exchanging? && s'.callers[d].after.access == w {
      assert s.callers[d].Exchanging? && s.callers[d].after.access == w;
    } else {
      var id :| id in s'.rows && s'.rows[id].access == w && !Replacing(s', w);
      assert id in s.rows && s.rows[id].access == w;
      forall f | f in s.callers && s.callers[f].Persisting? ensures s.callers[f].after.access != w {
        assert s'.callers[f].Persisting? && s'.callers[f].after == s.callers[f].after;
      }
    }
  }

  lemma WriteBudget(s: State, ev: Event, s': State)
    requires Budget(s) && Step(s, ev, s') && (ev.Login? || ev.Remove?)
    ensures Budget(s')
  {
    forall w ensures Exchanges(s'.log, w) + (if Live(s', w) then 1 else 0) <= 1 + Losses(s'.lost, w) {
      if Live(s', w) && w in s.minted {
        WriteLive(s, ev, s', w);
      }
    }
  }

  // --- runs ---

  lemma StepKeepsInv(s: State, ev: Event, s': State)
    requires Inv(s) && Step(s, ev, s')
    ensures Inv(s')
  {
    KeepsLockDiscipline(s, ev, s');
    if ev.ExchangeOk? {
      ExchangeKeeps(s, ev, s');
    } else if ev.PersistOk? || ev.PersistFails? {
      PersistKeeps(s, ev, s');
    } else if ev.Login? || ev.Remove? {
      WriteKeeps(s, ev, s');
    } else {
      CalmKeeps(s, ev, s');
    }
  }

  lemma ExchangeKeeps(s: State, ev: Event, s': State)
    requires Inv(s) && Step(s, ev, s') && ev.ExchangeOk?
    ensures Provenance(s') && Undisturbed(s') && PendingUnseen(s') && Budget(s')
  {
    ExchangeOkProvenance(s, ev, s');
    ExchangeOkUndisturbed(s, ev, s');
    ExchangeOkPending(s, ev, s');
    ExchangeOkBudget(s, ev, s');
  }

  lemma PersistKeeps(s: State, ev: Event, s': State)
    requires Inv(s) && Step(s, ev, s') && (ev.PersistOk? || ev.PersistFails?)
    ensures Provenance(s') && Undisturbed(s') && PendingUnseen(s') && Budget(s')
  {
    PersistProvenance(s, ev, s');
    PersistUndisturbed(s, ev, s');
    PersistPending(s, ev, s');
    if ev.PersistOk? { PersistOkBudget(s, ev, s'); } else { PersistFailsBudget(s, ev, s'); }
  }

  lemma CalmKeeps(s: State, ev: Event, s': State)
    requires Inv(s) && Step(s, ev, s')
    requires ev.Read? || ev.ReadFails? || ev.LockStep? || ev.Reread? || ev.RereadFails? || ev.ExchangeFails?
    ensures Provenance(s') && Undisturbed(s') && PendingUnseen(s') && Budget(s')
  {
    CalmEvents(s, ev, s');
    CalmProvenance(s, ev.c, s');
    CalmUndisturbed(s, ev.c, s');
    CalmPending(s, ev.c, s');
    CalmBudget(s, ev.c, s');
  }

  lemma WriteKeeps(s: State, ev: Event, s': State)
    requires Provenance(s) && Undisturbed(s) && PendingUnseen(s) && Budget(s)
    requires Step(s, ev, s') && (ev.Login? || ev.Remove?)
    ensures Provenance(s') && Undisturbed(s') && PendingUnseen(s') && Budget(s')
  {
    WriteProvenance(s, ev, s');
    WriteUndisturbed(s, ev, s');
    WritePending(s, ev, s');
    WriteBudget(s, ev, s');
  }

  ghost predicate IsRun(states: seq<State>, events: seq<Event>) {
    && |states| == |events| + 1
    && states[0] == INITIAL
    && forall i :: 0 <= i < |events| ==> Step(states[i], events[i], states[i + 1])
  }

  lemma {:induction false} RunsKeepInv(states: seq<State>, events: seq<Event>, k: nat)
    requires IsRun(states, events) && k <= |events|
    ensures Inv(states[k])
  {
    if k > 0 {
      RunsKeepInv(states, events, k - 1);
      StepKeepsInv(states[k - 1], events[k - 1], states[k]);
    }
  }

  // --- what a run guarantees ---

  lemma {:induction false} CausedAreExchanges(log: seq<Exchange>, v: string)
    requires forall e | e in log :: e.firstRead == e.version
    ensures Caused(log, v) == Exchanges(log, v)
  {
    if log != [] {
      assert log[|log| - 1] in log;
      CausedAreExchanges(log[..|log| - 1], v);
    }
  }

  lemma {:induction false} LossesAtMostLength(lost: seq<string>, v: string)
    requires v !in lost
    ensures Losses(lost, v) == 0
  {
    if lost != [] {
      assert lost[|lost| - 1] in lost;
      LossesAtMostLength(lost[..|lost| - 1], v);
    }
  }

  /** In every interleaving a stored version is exchanged at most once, plus once more for each of its exchanges
      whose result could not be persisted; callers that first read it cause no other exchange. */
  lemma SingleFlight(states: seq<State>, events: seq<Event>, k: nat, v: string)
    requires IsRun(states, events) && k <= |events|
    ensures Caused(states[k].log, v) == Exchanges(states[k].log, v) <= 1 + Losses(states[k].lost, v)
    ensures v !in states[k].lost ==> Exchanges(states[k].log, v) <= 1
  {
    RunsKeepInv(states, events, k);
    CausedAreExchanges(states[k].log, v);
    if v !in states[k].lost {
      LossesAtMostLength(states[k].lost, v);
    }
  }

  /** A persist changes one row only, and stores there the new access token with the refresh token it presented, unless
      the grant rotated it: never an empty one. The row it writes over is the one it presented exactly when no login or
      removal came between. */
  lemma RefreshTokenKept(states: seq<State>, events: seq<Event>, i: nat, j: nat, c: Caller)
    requires IsRun(states, events) && i < j < |events|
    requires events[i].ExchangeOk? && events[i].c == c && events[j] == PersistOk(c)
    requires forall k | i < k < j :: events[k] != PersistOk(c) && events[k] != PersistFails(c)
    requires c in states[i].callers && states[i].callers[c].Exchanging?
    ensures c in states[j].callers && states[j].callers[c].Persisting?
    ensures var row, next, grant := states[j].rows, states[j + 1].rows, events[i];
      var presented, id := states[i].callers[c].after, states[j].callers[c].after.id;
      && id == presented.id && presented.refresh != ""
      && id in next && next == row[id := next[id]] && next[id].access == grant.access
      && next[id].refresh == (if grant.rotated && grant.token != "" then grant.token else presented.refresh)
      && next[id].refresh != ""
      && (id in row && row[id] == presented <==> !states[j].callers[c].intruded)
  {
    RunsKeepInv(states, events, i);
    RunsKeepInv(states, events, j);
    RunsKeepDisplaced(states, events, j);
    PersistingHolds(states, events, i, j, c);
    assert Step(states[j], events[j], states[j + 1]);
  }

  /** A caller stays between exchange and persist until it persists. */
  lemma {:induction false} PersistingHolds(states: seq<State>, events: seq<Event>, i: nat, j: nat, c: Caller)
    requires IsRun(states, events) && i < j <= |events|
    requires events[i].ExchangeOk? && events[i].c == c
    requires forall k | i < k < j :: events[k] != PersistOk(c) && events[k] != PersistFails(c)
    requires c in states[i].callers && states[i].callers[c].Exchanging?
    ensures c in states[j].callers && states[j].callers[c].Persisting?
    ensures states[j].callers[c].after == states[i].callers[c].after
    ensures states[j].callers[c].result
         == Blob(states[i].callers[c].after.id, events[i].access,
                 RefreshToStore(states[i].callers[c].after.refresh, events[i].rotated, events[i].token))
  {
    if j > i + 1 {
      PersistingHolds(states, events, i, j - 1, c);
      StaysPersisting(states[j - 1], events[j - 1], states[j], c);
    }
  }

  lemma StaysPersisting(s: State, ev: Event, s': State, c: Caller)
    requires Step(s, ev, s') && c in s.callers && s.callers[c].Persisting?
    requires ev != PersistOk(c) && ev != PersistFails(c)
    ensures c in s'.callers && s'.callers[c].Persisting?
    ensures s'.callers[c].after == s.callers[c].after && s'.callers[c].result == s.callers[c].result
  {
  }

  // --- when a version is exchanged again ---

  /** Each loss of a version, and a result of it still to be persisted, goes back to an exchange of its own. */
  ghost predicate Tally(s: State) {
    forall v :: Losses(s.lost, v) + (if Replacing(s, v) then 1 else 0) <= Exchanges(s.log, v)
  }

  lemma ReplacingBefore(s: State, ev: Event, s': State, v: string)
    requires Step(s, ev, s') && Replacing(s', v)
    ensures Replacing(s, v) || (ev.ExchangeOk? && s.callers[ev.c].after.access == v)
  {
    var d :| d in s'.callers && s'.callers[d].Persisting? && s'.callers[d].after.access == v;
    assert d in s.callers && (s.callers[d].Persisting? || (ev.ExchangeOk? && ev.c == d));
  }

  /** Once its persist failed, nobody is persisting a result of that version any more. */
  lemma LossEndsReplacing(s: State, ev: Event, s': State)
    requires LockDiscipline(s) && Provenance(s) && Step(s, ev, s') && ev.PersistFails?
    ensures Replacing(s, s.callers[ev.c].after.access) && !Replacing(s', s.callers[ev.c].after.access)
  {
    var v := s.callers[ev.c].after.access;
    forall d | d in s'.callers && s'.callers[d].Persisting? ensures s'.callers[d].after.access != v {
      assert s.callers[d] == s'.callers[d];
      if s.callers[d].after.access == v {
        assert s.callers[d].after == s.minted[v] == s.callers[ev.c].after;
        OneCritical(s, ev.c, d);
      }
    }
  }

  lemma StepKeepsTally(s: State, ev: Event, s': State)
    requires LockDiscipline(s) && Provenance(s) && Tally(s) && Step(s, ev, s')
    ensures Tally(s')
  {
    forall v ensures Losses(s'.lost, v) + (if Replacing(s', v) then 1 else 0) <= Exchanges(s'.log, v) {
      if Replacing(s', v) { ReplacingBefore(s, ev, s', v); }
      match ev
      case ExchangeOk(c, _, _, _) =>
        ExchangesAppend(s.log, Exchange(c, s.callers[c].before.access, s.callers[c].after.access), v);
      case PersistFails(c) =>
        LossesAppend(s.lost, s.callers[c].after.access, v);
        LossEndsReplacing(s, ev, s');
      case _ =>
    }
  }

  lemma {:induction false} RunsKeepTally(states: seq<State>, events: seq<Event>, k: nat)
    requires IsRun(states, events) && k <= |events|
    ensures Tally(states[k])
  {
    if k > 0 {
      RunsKeepInv(states, events, k - 1);
      RunsKeepTally(states, events, k - 1);
      StepKeepsTally(states[k - 1], events[k - 1], states[k]);
    }
  }

  /** The event is a failed persist by a caller that presented version v. */
  ghost predicate LosesVersion(s: State, ev: Event, v: string) {
    ev.PersistFails? && ev.c in s.callers && s.callers[ev.c].Persisting? && s.callers[ev.c].after.access == v
  }

  ghost predicate LostBefore(states: seq<State>, events: seq<Event>, v: string, k: nat)
    requires k <= |events| && |states| == |events| + 1
  {
    exists j :: 0 <= j < k && LosesVersion(states[j], events[j], v)
  }

  lemma {:induction false} LossesIffLostBefore(states: seq<State>, events: seq<Event>, v: string, k: nat)
    requires IsRun(states, events) && k <= |events|
    ensures Losses(states[k].lost, v) > 0 <==> LostBefore(states, events, v, k)
  {
    if k > 0 {
      var s, ev, s' := states[k - 1], events[k - 1], states[k];
      LossesIffLostBefore(states, events, v, k - 1);
      assert Step(s, ev, s');
      if ev.PersistFails? { LossesAppend(s.lost, s.callers[ev.c].after.access, v); }
      assert Losses(s'.lost, v) > 0 <==> Losses(s.lost, v) > 0 || LosesVersion(s, ev, v);
      if j :| 0 <= j < k - 1 && LosesVersion(states[j], events[j], v) { assert LostBefore(states, events, v, k); }
    }
  }

  /** Exactly when a version is exchanged again: at every successful exchange all earlier exchanges of that version are
      ones whose result could not be persisted, so it is the first one if and only if no persist of it failed before. */
  lemma ExchangedAgainIff(states: seq<State>, events: seq<Event>, i: nat)
    requires IsRun(states, events) && i < |events| && events[i].ExchangeOk?
    ensures events[i].c in states[i].callers && states[i].callers[events[i].c].Exchanging?
    ensures var v := states[i].callers[events[i].c].after.access;
      && Exchanges(states[i].log, v) == Losses(states[i].lost, v)
      && (Exchanges(states[i].log, v) == 0 <==> !LostBefore(states, events, v, i))
  {
    assert Step(states[i], events[i], states[i + 1]);
    var v := states[i].callers[events[i].c].after.access;
    RunsKeepInv(states, events, i);
    RunsKeepTally(states, events, i);
    LossesIffLostBefore(states, events, v, i);
    assert Live(states[i], v);
  }

  // --- logins and removals during an exchange ---

  predicate Busy(p: Phase) { p.Exchanging? || p.Persisting? }

  predicate Writes(ev: Event, id: Cred) { (ev.Login? && ev.blob.id == id) || ev == Remove(id) }

  /** Once a login or removal has come in between, the row is gone or holds another access token. */
  ghost predicate Displaced(s: State) {
    forall c | c in s.callers && Busy(s.callers[c]) && s.callers[c].intruded ::
      s.callers[c].after.id in s.rows ==> s.rows[s.callers[c].after.id].access != s.callers[c].after.access
  }

  /** Away from logins, removals and its own persist, nobody changes the row a busy caller works on. */
  lemma BusyRow(s: State, ev: Event, s': State, c: Caller)
    requires LockDiscipline(s) && Provenance(s) && Step(s, ev, s') && c in s'.callers && Busy(s'.callers[c])
    requires !Writes(ev, s'.callers[c].after.id)
    ensures var id := s'.callers[c].after.id;
      (id in s'.rows <==> id in s.rows) && (id in s.rows ==> s'.rows[id] == s.rows[id])
  {
    NewlyBusy(s, ev, s', c);
    if ev.PersistOk? && s.callers[ev.c].result.id == s'.callers[c].after.id { PersistsAlone(s, ev.c, s', c); }
    RowStays(s, ev, s', s'.callers[c].after.id);
  }

  /** Nobody is busy with the credential whose result has just been persisted. */
  lemma PersistsAlone(s: State, d: Caller, s': State, c: Caller)
    requires LockDiscipline(s) && Provenance(s) && Step(s, PersistOk(d), s')
    requires c in s'.callers && Busy(s'.callers[c])
    ensures s'.callers[c].after.id != s.callers[d].result.id
  {
    assert s.callers[c] == s'.callers[c];
    if s.callers[c].before.id == s.callers[d].before.id { OneCritical(s, c, d); }
  }

  lemma RowStays(s: State, ev: Event, s': State, id: Cred)
    requires Step(s, ev, s') && !Writes(ev, id) && !(ev.PersistOk? && s.callers[ev.c].result.id == id)
    ensures (id in s'.rows <==> id in s.rows) && (id in s.rows ==> s'.rows[id] == s.rows[id])
  {
  }

  /** After its re-read a caller is busy, and then over for good; only a login or removal of its row marks it. */
  lemma BusyStep(s: State, ev: Event, s': State, c: Caller)
    requires Step(s, ev, s') && c in s.callers && (Busy(s.callers[c]) || s.callers[c].Over?)
    ensures c in s'.callers && (Busy(s'.callers[c]) || s'.callers[c].Over?)
    ensures Busy(s'.callers[c]) ==>
              && Busy(s.callers[c]) && s'.callers[c].after == s.callers[c].after
              && s'.callers[c].intruded == (s.callers[c].intruded || Writes(ev, s.callers[c].after.id))
  {
  }

  lemma NewlyBusy(s: State, ev: Event, s': State, c: Caller)
    requires Step(s, ev, s') && c in s'.callers && Busy(s'.callers[c])
    ensures c in s.callers && (Busy(s.callers[c]) || (ev == Reread(c) && !s'.callers[c].intruded))
  {
  }

  lemma StepKeepsDisplaced(s: State, ev: Event, s': State)
    requires Inv(s) && Displaced(s) && Step(s, ev, s')
    ensures Displaced(s')
  {
    forall c | c in s'.callers && Busy(s'.callers[c]) && s'.callers[c].intruded && s'.callers[c].after.id in s'.rows
      ensures s'.rows[s'.callers[c].after.id].access != s'.callers[c].after.access
    {
      StaysDisplaced(s, ev, s', c);
    }
  }

  lemma StaysDisplaced(s: State, ev: Event, s': State, c: Caller)
    requires LockDiscipline(s) && Provenance(s) && Displaced(s) && Step(s, ev, s')
    requires c in s'.callers && Busy(s'.callers[c]) && s'.callers[c].intruded && s'.callers[c].after.id in s'.rows
    ensures s'.rows[s'.callers[c].after.id].access != s'.callers[c].after.access
  {
    NewlyBusy(s, ev, s', c);
    BusyStep(s, ev, s', c);
    assert Minted(s, s.callers[c].after);
    if !Writes(ev, s'.callers[c].after.id) { BusyRow(s, ev, s', c); }
  }

  lemma {:induction false} RunsKeepDisplaced(states: seq<State>, events: seq<Event>, k: nat)
    requires IsRun(states, events) && k <= |events|
    ensures Displaced(states[k])
  {
    if k > 0 {
      RunsKeepInv(states, events, k - 1);
      RunsKeepDisplaced(states, events, k - 1);
      StepKeepsDisplaced(states[k - 1], events[k - 1], states[k]);
    }
  }

  ghost predicate WrittenBetween(events: seq<Event>, id: Cred, i: nat, k: nat)
    requires k <= |events|
  {
    exists l :: i < l < k && Writes(events[l], id)
  }

  ghost predicate LoginBetween(events: seq<Event>, b: Blob, i: nat, k: nat)
    requires k <= |events|
  {
    exists l :: i < l < k && events[l] == Login(b)
  }

  /** What is known of a caller at time k that re-read at time i. */
  ghost predicate Since(s: State, events: seq<Event>, i: nat, k: nat, c: Caller)
    requires k <= |events|
  {
    && c in s.callers
    && (s.callers[c].Over? || (Busy(s.callers[c]) &&
         var id := s.callers[c].after.id;
         && (s.callers[c].intruded <==> WrittenBetween(events, id, i, k))
         && (s.callers[c].intruded && id in s.rows ==> LoginBetween(events, s.rows[id], i, k))))
  }

  lemma SinceStep(s: State, s': State, events: seq<Event>, i: nat, k: nat, c: Caller)
    requires i < k < |events| && LockDiscipline(s) && Provenance(s) && Step(s, events[k], s') && Since(s, events, i, k, c)
    ensures Since(s', events, i, k + 1, c)
  {
    BusyStep(s, events[k], s', c);
    if Busy(s'.callers[c]) {
      var id := s'.callers[c].after.id;
      if Writes(events[k], id) { WrittenRow(s, events[k], s', id); } else { BusyRow(s, events[k], s', c); }
      SinceGrows(s, s', events, i, k, c);
    }
  }

  lemma WrittenRow(s: State, ev: Event, s': State, id: Cred)
    requires Step(s, ev, s') && Writes(ev, id)
    ensures id in s'.rows ==> ev == Login(s'.rows[id])
  {
  }

  /** One event more, for a caller that stays busy. */
  lemma SinceGrows(s: State, s': State, events: seq<Event>, i: nat, k: nat, c: Caller)
    requires i < k < |events| && Since(s, events, i, k, c) && c in s'.callers && Busy(s'.callers[c]) && Busy(s.callers[c])
    requires s'.callers[c].after == s.callers[c].after
    requires s'.callers[c].intruded == (s.callers[c].intruded || Writes(events[k], s.callers[c].after.id))
    requires var id := s.callers[c].after.id;
      if Writes(events[k], id) then id in s'.rows ==> events[k] == Login(s'.rows[id])
      else (id in s'.rows <==> id in s.rows) && (id in s.rows ==> s'.rows[id] == s.rows[id])
    ensures Since(s', events, i, k + 1, c)
  {
    var id := s.callers[c].after.id;
    WrittenGrows(events, id, i, k);
    if !Writes(events[k], id) && s'.callers[c].intruded && id in s'.rows { LoginGrows(events, s.rows[id], i, k); }
  }

  lemma {:induction false} BusySince(states: seq<State>, events: seq<Event>, i: nat, k: nat, c: Caller)
    requires IsRun(states, events) && i < k <= |events| && events[i] == Reread(c)
    ensures Since(states[k], events, i, k, c)
  {
    if k > i + 1 {
      BusySince(states, events, i, k - 1, c);
      RunsKeepInv(states, events, k - 1);
      SinceStep(states[k - 1], states[k], events, i, k - 1, c);
    } else {
      Rereads(states[i], states[k], c);
    }
  }

  lemma Rereads(s: State, s': State, c: Caller)
    requires Step(s, Reread(c), s')
    ensures c in s'.callers && (s'.callers[c].Over? || (s'.callers[c].Exchanging? && !s'.callers[c].intruded))
  {
  }

  lemma WrittenGrows(events: seq<Event>, id: Cred, i: nat, k: nat)
    requires i < k < |events|
    ensures WrittenBetween(events, id, i, k + 1) <==> WrittenBetween(events, id, i, k) || Writes(events[k], id)
  {
    if WrittenBetween(events, id, i, k) {
      var l :| i < l < k && Writes(events[l], id);
      assert i < l < k + 1;
    }
  }

  lemma LoginGrows(events: seq<Event>, b: Blob, i: nat, k: nat)
    requires k < |events| && LoginBetween(events, b, i, k)
    ensures LoginBetween(events, b, i, k + 1)
  {
    var l :| i < l < k && events[l] == Login(b);
    assert i < l < k + 1;
  }

  /** A persist finds the row its caller re-read if and only if no login or removal of that credential came between. */
  lemma PersistFindsRowIff(states: seq<State>, events: seq<Event>, i: nat, j: nat, c: Caller)
    requires IsRun(states, events) && i < j < |events| && events[i] == Reread(c) && events[j] == PersistOk(c)
    ensures c in states[j].callers && states[j].callers[c].Persisting?
    ensures var rows, p := states[j].rows, states[j].callers[c];
      p.after.id in rows && rows[p.after.id] == p.after <==> !WrittenBetween(events, p.after.id, i, j)
  {
    assert Step(states[j], events[j], states[j + 1]);
    RunsKeepInv(states, events, j);
    RunsKeepDisplaced(states, events, j);
    BusySince(states, events, i, j, c);
  }

  /** The access token is in some row. */
  ghost predicate Stored(rows: map<Cred, Blob>, access: string) {
    exists id :: id in rows && rows[id].access == access
  }

  /** What a persist that was overtaken does: it brings a removed row back, or it destroys the blob of a login that came
      between. It does one of the two exactly when a login or removal of its credential came between. */
  lemma PersistDestroysIff(states: seq<State>, events: seq<Event>, i: nat, j: nat, c: Caller)
    requires IsRun(states, events) && i < j < |events| && events[i] == Reread(c) && events[j] == PersistOk(c)
    ensures c in states[j].callers && states[j].callers[c].Persisting?
    ensures var id, rows, next := states[j].callers[c].after.id, states[j].rows, states[j + 1].rows;
      && id in next
      && (WrittenBetween(events, id, i, j) <==>
            || id !in rows
            || (LoginBetween(events, rows[id], i, j) && !Stored(next, rows[id].access)))
  {
    PersistFindsRowIff(states, events, i, j, c);
    BusySince(states, events, i, j, c);
    var s, s' := states[j], states[j + 1];
    assert Step(s, events[j], s');
    RunsKeepInv(states, events, j);
    var id := s.callers[c].after.id;
    if id in s.rows {
      if LoginBetween(events, s.rows[id], i, j) {
        var l :| i < l < j && events[l] == Login(s.rows[id]);
        assert Writes(events[l], id);
      }
      OverwrittenIsGone(s, c, s');
    }
  }

  /** The blob a persist writes over is in no row any more. */
  lemma OverwrittenIsGone(s: State, c: Caller, s': State)
    requires Provenance(s) && PendingUnseen(s) && Step(s, PersistOk(c), s') && s.callers[c].after.id in s.rows
    ensures !Stored(s'.rows, s.rows[s.callers[c].after.id].access)
  {
    var id := s.callers[c].after.id;
    var v, w := s.rows[id].access, s.callers[c].result.access;
    assert Pending(s, w) && Unseen(s, w) && Minted(s, s.rows[id]);
    forall jd | jd in s'.rows ensures s'.rows[jd].access != v {
      assert jd != id ==> Minted(s, s.rows[jd]) && s.rows[jd].id != s.rows[id].id;
    }
  }

  // --- where the guarantee ends ---

  ghost predicate Reachable(s: State) {
    exists states, events :: IsRun(states, events) && states[|events|] == s
  }

  lemma Extend(s: State, ev: Event, s': State)
    requires Reachable(s) && Step(s, ev, s')
    ensures Reachable(s')
  {
    var states, events :| IsRun(states, events) && states[|events|] == s;
    assert IsRun(states + [s'], events + [ev]);
    assert (states + [s'])[|events + [ev]|] == s';
  }

  lemma ReachableRow(s: State, id: Cred)
    requires Reachable(s) && id in s.rows
    ensures s.rows[id].id == id && s.rows[id].access in s.minted
  {
    var states, events :| IsRun(states, events) && states[|events|] == s;
    RunsKeepInv(states, events, |events|);
  }

  /** Caller c refreshes a credential nobody else is refreshing, up to a successful exchange. */
  lemma SoloExchange(s: State, c: Caller, id: Cred, access: string, rotated: bool, token: string) returns (s': State)
    requires Reachable(s) && c !in s.callers && c !in s.lock.sessions
    requires id in s.rows && s.rows[id].refresh != "" && id !in s.lock.reg.table
    requires access !in s.minted
    ensures Reachable(s') && s'.rows == s.rows && s'.lost == s.lost
    ensures s'.log == s.log + [Exchange(c, s.rows[id].access, s.rows[id].access)]
    ensures s'.minted == s.minted[access := Blob(id, access, RefreshToStore(s.rows[id].refresh, rotated, token))]
    ensures s'.callers
         == s.callers[c := Persisting(s.rows[id], s.rows[id], s'.minted[access], false)]
    ensures s'.lock.reg.table == s.lock.reg.table[id := s.lock.reg.next]
    ensures s.lock.reg.next in s'.lock.reg.entries && s'.lock.reg.entries[s.lock.reg.next] == LR.Entry(true, 1)
    ensures s'.lock.sessions == s.lock.sessions[c := LR.Holding(id, s.lock.reg.next)]
  {
    ReachableRow(s, id);
    var row, e := s.rows[id], s.lock.reg.next;
    var s1 := Move(s, c, Snapshot(row));
    Extend(s, Read(c, id), s1);
    var s2 := s1.(lock := LR.State(LR.Ref(s.lock.reg, id).0, s.lock.sessions[c := LR.Waiting(id, e)]));
    assert s2 == Move(s1, c, s2.callers[c]).(lock := s2.lock);
    Extend(s1, LockStep(c, LR.Begin(id)), s2);
    var s3 := Move(s2, c, Locked(row)).(
      lock := LR.State(LR.Fill(s2.lock.reg, e, true), s2.lock.sessions[c := LR.Holding(id, e)]));
    Extend(s2, LockStep(c, LR.Acquire), s3);
    var s4 := Move(s3, c, Exchanging(row, row, false));
    Extend(s3, Reread(c), s4);
    var issued := Blob(id, access, RefreshToStore(row.refresh, rotated, token));
    s' := Move(s4, c, Persisting(row, row, issued, false)).(
      minted := s4.minted[access := issued], log := s4.log + [Exchange(c, row.access, row.access)]);
    Extend(s4, ExchangeOk(c, access, rotated, token), s');
  }

  /** Caller c, alone with the lock, fails to persist and lets the lock go. */
  lemma LoseAndUnlock(s: State, c: Caller, id: Cred, e: LR.EntryId) returns (s': State)
    requires Reachable(s) && c in s.callers && s.callers[c].Persisting?
    requires c in s.lock.sessions && s.lock.sessions[c] == LR.Holding(id, e)
    requires e in s.lock.reg.entries && s.lock.reg.entries[e] == LR.Entry(true, 1)
    requires id in s.lock.reg.table && s.lock.reg.table[id] == e
    ensures Reachable(s') && s'.rows == s.rows && s'.minted == s.minted && s'.log == s.log
    ensures s'.lost == s.lost + [s.callers[c].after.access]
    ensures s'.callers == s.callers[c := Over] && id !in s'.lock.reg.table
    ensures s'.lock.sessions == s.lock.sessions[c := LR.Done]
  {
    var s1 := Move(s, c, Over).(lost := s.lost + [s.callers[c].after.access]);
    Extend(s, PersistFails(c), s1);
    var s2 := s1.(lock := LR.State(LR.Fill(s1.lock.reg, e, false), s1.lock.sessions[c := LR.Unlocking(id, e)]));
    assert s2 == Move(s1, c, Over).(lock := s2.lock);
    Extend(s1, LockStep(c, LR.Unlock), s2);
    s' := s2.(lock := LR.State(LR.Release(s2.lock.reg, id, e), s2.lock.sessions[c := LR.Done]));
    assert s' == Move(s2, c, Over).(lock := s'.lock);
    Extend(s2, LockStep(c, LR.DropUnlocked), s');
  }

  /** The bound of SingleFlight is met: wherever a credential can be refreshed at all, one failed persist lets the
      next caller exchange the very same version, and with it the same refresh token, again. */
  lemma FailedPersistRepeatsExchange(s: State, id: Cred, c: Caller, d: Caller, a1: string, a2: string)
    returns (s': State)
    requires Reachable(s) && c != d && c !in s.callers && d !in s.callers
    requires c !in s.lock.sessions && d !in s.lock.sessions
    requires id in s.rows && s.rows[id].refresh != "" && id !in s.lock.reg.table
    requires a1 !in s.minted && a2 !in s.minted && a1 != a2
    ensures Reachable(s')
    ensures var v := s.rows[id].access;
      && Exchanges(s'.log, v) == Exchanges(s.log, v) + 2
      && Losses(s'.lost, v) == Losses(s.lost, v) + 1
  {
    var v := s.rows[id].access;
    ReachableRow(s, id);
    var s1 := SoloExchange(s, c, id, a1, false, "");
    var s2 := LoseAndUnlock(s1, c, id, s.lock.reg.next);
    s' := SoloExchange(s2, d, id, a2, false, "");
    ExchangesAppend(s.log, Exchange(c, v, v), v);
    ExchangesAppend(s1.log, Exchange(d, v, v), v);
    LossesAppend(s.lost, v, v);
  }

  /** A login that writes the row during the exchange is lost: the persist that follows stores the exchanged blob
      over it, and the token just obtained by logging in is in no row. */
  lemma LoginDuringExchangeLost(s: State, id: Cred, c: Caller, access: string, b: Blob) returns (s': State)
    requires Reachable(s) && c !in s.callers && c !in s.lock.sessions
    requires id in s.rows && s.rows[id].refresh != "" && id !in s.lock.reg.table
    requires access !in s.minted && b.access !in s.minted && access != b.access && b.id == id
    ensures Reachable(s') && id in s'.rows && s'.rows[id].access == access
    ensures b.access in s'.minted && forall jd | jd in s'.rows :: s'.rows[jd].access != b.access
  {
    forall jd | jd in s.rows ensures s.rows[jd].access in s.minted { ReachableRow(s, jd); }
    var s1 := SoloExchange(s, c, id, access, false, "");
    var s2 := s1.(rows := s1.rows[id := b], minted := s1.minted[b.access := b], callers := IntrudeAll(s1.callers, id));
    Extend(s1, Login(b), s2);
    s' := Move(s2, c, Over).(rows := s2.rows[id := s2.callers[c].result]);
    Extend(s2, PersistOk(c), s');
  }
}
