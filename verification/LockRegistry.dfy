/** The per-credential single-flight lock (internal/store/credential_store.go): a refcounted semaphore per
    credential that is created on demand and reclaimed when nobody refers to it. One registry call or channel
    operation is one step; any number of callers interleave. */
module LockRegistry {

  type Cred = string
  type EntryId = nat
  type Caller = nat

  /** `held` is the full one-slot channel. */
  datatype Entry = Entry(held: bool, refs: int)

  datatype Registry = Registry(table: map<Cred, EntryId>, entries: map<EntryId, Entry>, next: EntryId)

  const EMPTY := Registry(map[], map[], 0)

  // --- the atomic operations ---

  /** The entry for id, created when absent, with one more reference. */
  function Ref(r: Registry, id: Cred): (Registry, EntryId) {
    if id in r.table && r.table[id] in r.entries then
      var e := r.table[id];
      (r.(entries := r.entries[e := r.entries[e].(refs := r.entries[e].refs + 1)]), e)
    else
      (Registry(r.table[id := r.next], r.entries[r.next := Entry(false, 1)], r.next + 1), r.next)
  }

  function Fill(r: Registry, e: EntryId, held: bool): Registry
    requires e in r.entries
  {
    r.(entries := r.entries[e := r.entries[e].(held := held)])
  }

  /** One reference less; the entry leaves the table at zero if it is still the one stored there. */
  function Release(r: Registry, id: Cred, e: EntryId): Registry
    requires e in r.entries
  {
    var refs := r.entries[e].refs - 1;
    var counted := r.(entries := r.entries[e := r.entries[e].(refs := refs)]);
    if refs <= 0 && id in r.table && r.table[id] == e then counted.(table := r.table - {id}) else counted
  }

  /** The registry object: its methods run under the registry mutex or are single channel operations. */
  class Locks {
    var table: map<Cred, EntryId>
    var entries: map<EntryId, Entry>
    var next: EntryId

    function View(): Registry
      reads this
    {
      Registry(table, entries, next)
    }

    constructor ()
      ensures View() == EMPTY
    {
      table, entries, next := map[], map[], 0;
    }

    method TakeRef(id: Cred) returns (e: EntryId)
      requires id in table ==> table[id] in entries
      modifies this
      ensures (View(), e) == Ref(old(View()), id)
    {
      ghost var was := entries;
      if id in table {
        e := table[id];
      } else {
        e := next;
        next := next + 1;
        entries := entries[e := Entry(false, 0)];
        table := table[id := e];
      }
      entries := entries[e := entries[e].(refs := entries[e].refs + 1)];
      assert entries == was[e := entries[e]];
    }

    /** The non-blocking half of a channel send: succeeds when the slot is free. */
    method TrySend(e: EntryId) returns (sent: bool)
      requires e in entries
      modifies this
      ensures sent <==> !old(entries)[e].held
      ensures View() == if sent then Fill(old(View()), e, true) else old(View())
    {
      sent := !entries[e].held;
      if sent { entries := entries[e := entries[e].(held := true)]; }
    }

    method TryReceive(e: EntryId) returns (received: bool)
      requires e in entries
      modifies this
      ensures received <==> old(entries)[e].held
      ensures View() == if received then Fill(old(View()), e, false) else old(View())
    {
      received := entries[e].held;
      if received { entries := entries[e := entries[e].(held := false)]; }
    }

    method ReleaseRef(id: Cred, e: EntryId)
      requires e in entries
      modifies this
      ensures View() == Release(old(View()), id, e)
    {
      var refs := entries[e].refs - 1;
      entries := entries[e := entries[e].(refs := refs)];
      if refs <= 0 {
        if id in table && table[id] == e {
          table := table - {id};
        }
      }
    }
  }

  // --- callers ---

  /** One acquire call and its unlock closure. `Unlocking` has emptied the slot but still holds its reference;
      `Done` is what a finished or repeated unlock sees. */
  datatype Session =
    | Waiting(id: Cred, e: EntryId)
    | Cancelling(id: Cred, e: EntryId)
    | Holding(id: Cred, e: EntryId)
    | Unlocking(id: Cred, e: EntryId)
    | Done

  datatype State = State(reg: Registry, sessions: map<Caller, Session>)

  datatype Action = Begin(id: Cred) | Acquire | Cancel | DropCancelled | Unlock | DropUnlocked | UnlockAgain

  /** One step of caller c. */
  ghost predicate Step(s: State, c: Caller, a: Action, s': State) {
    match a
    case Begin(id) =>
      c !in s.sessions && var (reg, e) := Ref(s.reg, id); s' == State(reg, s.sessions[c := Waiting(id, e)])
    case Acquire =>
      c in s.sessions && s.sessions[c].Waiting? && s.sessions[c].e in s.reg.entries && !s.reg.entries[s.sessions[c].e].held &&
      s' == State(Fill(s.reg, s.sessions[c].e, true), s.sessions[c := Holding(s.sessions[c].id, s.sessions[c].e)])
    case Cancel =>
      c in s.sessions && s.sessions[c].Waiting? &&
      s' == s.(sessions := s.sessions[c := Cancelling(s.sessions[c].id, s.sessions[c].e)])
    case Unlock =>
      c in s.sessions && s.sessions[c].Holding? && s.sessions[c].e in s.reg.entries && s.reg.entries[s.sessions[c].e].held &&
      s' == State(Fill(s.reg, s.sessions[c].e, false), s.sessions[c := Unlocking(s.sessions[c].id, s.sessions[c].e)])
    case DropCancelled =>
      c in s.sessions && s.sessions[c].Cancelling? && s.sessions[c].e in s.reg.entries &&
      s' == State(Release(s.reg, s.sessions[c].id, s.sessions[c].e), s.sessions[c := Done])
    case DropUnlocked =>
      c in s.sessions && s.sessions[c].Unlocking? && s.sessions[c].e in s.reg.entries &&
      s' == State(Release(s.reg, s.sessions[c].id, s.sessions[c].e), s.sessions[c := Done])
    case UnlockAgain =>
      c in s.sessions && (s.sessions[c].Unlocking? || s.sessions[c].Done?) && s' == s
  }

  ghost predicate Refers(t: Session, e: EntryId) { !t.Done? && t.e == e }

  ghost function Referrers(s: State, e: EntryId): set<Caller> {
    set c | c in s.sessions && Refers(s.sessions[c], e)
  }

  ghost predicate Holds(s: State, c: Caller, e: EntryId) { c in s.sessions && s.sessions[c].Holding? && s.sessions[c].e == e }

  // --- the invariant ---

  /** Everyone who refers to an entry found it, and still finds it, under its credential. */
  ghost predicate Shared(s: State) {
    forall c | c in s.sessions && !s.sessions[c].Done? :: s.sessions[c].id in s.reg.table && s.reg.table[s.sessions[c].id] == s.sessions[c].e
  }

  /** Table entries exist, are distinct, and count exactly their referrers, of which there is at least one. */
  ghost predicate Counted(s: State) {
    && (forall e | e in s.reg.entries :: e < s.reg.next)
    && (forall id | id in s.reg.table ::
          var e := s.reg.table[id];
          e in s.reg.entries && s.reg.entries[e].refs == |Referrers(s, e)| && Referrers(s, e) != {})
    && (forall id, jd | id in s.reg.table && jd in s.reg.table && s.reg.table[id] == s.reg.table[jd] :: id == jd)
  }

  /** The slot is full exactly while someone holds it, and then only one does. */
  ghost predicate Exclusive(s: State) {
    && (forall c, d, e | Holds(s, c, e) && Holds(s, d, e) :: c == d)
    && (forall id | id in s.reg.table && s.reg.table[id] in s.reg.entries ::
          s.reg.entries[s.reg.table[id]].held <==> exists c :: Holds(s, c, s.reg.table[id]))
  }

  ghost predicate Inv(s: State) { Shared(s) && Counted(s) && Exclusive(s) }

  lemma ReferrersAfter(s: State, c: Caller, t: Session, e: EntryId)
    ensures var s' := s.(sessions := s.sessions[c := t]);
            Referrers(s', e) == if Refers(t, e) then Referrers(s, e) + {c} else Referrers(s, e) - {c}
  {
  }

  lemma SessionsKnowOldEntries(s: State)
    requires Shared(s) && Counted(s)
    ensures forall c | c in s.sessions && !s.sessions[c].Done? :: s.sessions[c].e < s.reg.next
  {
  }

  lemma BeginEntries(s: State, c: Caller, id: Cred, s': State)
    requires Inv(s) && Step(s, c, Begin(id), s')
    ensures var (reg, e) := Ref(s.reg, id);
            && Referrers(s', e) == Referrers(s, e) + {c} && c !in Referrers(s, e)
            && (forall f | f != e :: Referrers(s', f) == Referrers(s, f))
            && (id !in s.reg.table ==> Referrers(s, e) == {} && forall d :: !Holds(s, d, e))
            && (forall d, f :: Holds(s', d, f) <==> Holds(s, d, f))
  {
    var (reg, e) := Ref(s.reg, id);
    SessionsKnowOldEntries(s);
    forall f ensures Referrers(s', f) == if f == e then Referrers(s, f) + {c} else Referrers(s, f) {
      ReferrersAfter(s, c, Waiting(id, e), f);
    }
  }

  lemma BeginCounted(s: State, c: Caller, id: Cred, s': State)
    requires Inv(s) && Step(s, c, Begin(id), s')
    ensures Counted(s')
  {
    BeginEntries(s, c, id, s');
    var (reg, e) := Ref(s.reg, id);
    forall jd | jd in s'.reg.table && jd != id ensures s'.reg.table[jd] != e {
      assert s.reg.table[jd] < s.reg.next;
    }
  }

  lemma BeginExclusive(s: State, c: Caller, id: Cred, s': State)
    requires Inv(s) && Step(s, c, Begin(id), s')
    ensures Exclusive(s')
  {
    BeginEntries(s, c, id, s');
  }

  lemma BeginKeepsInv(s: State, c: Caller, id: Cred, s': State)
    requires Inv(s) && Step(s, c, Begin(id), s')
    ensures Inv(s')
  {
    BeginCounted(s, c, id, s');
    BeginExclusive(s, c, id, s');
  }

  /** A step that only changes one caller's phase at its entry, neither entering nor leaving `Holding`. */
  lemma CancelKeepsInv(s: State, c: Caller, s': State)
    requires Inv(s) && Step(s, c, Cancel, s')
    ensures Inv(s')
  {
    forall f ensures Referrers(s', f) == Referrers(s, f) {
      ReferrersAfter(s, c, s'.sessions[c], f);
    }
    assert forall d, f :: Holds(s', d, f) <==> Holds(s, d, f);
  }

  lemma AcquireKeepsInv(s: State, c: Caller, s': State)
    requires Inv(s) && Step(s, c, Acquire, s')
    ensures Inv(s')
  {
    var e := s.sessions[c].e;
    forall f ensures Referrers(s', f) == Referrers(s, f) {
      ReferrersAfter(s, c, s'.sessions[c], f);
    }
    assert s.sessions[c].id in s.reg.table;
    assert forall d :: !Holds(s, d, e);
    assert forall d, f :: Holds(s', d, f) <==> Holds(s, d, f) || (d == c && f == e);
    assert Holds(s', c, e);
  }

  lemma UnlockKeepsInv(s: State, c: Caller, s': State)
    requires Inv(s) && Step(s, c, Unlock, s')
    ensures Inv(s')
  {
    var e := s.sessions[c].e;
    forall f ensures Referrers(s', f) == Referrers(s, f) {
      ReferrersAfter(s, c, s'.sessions[c], f);
    }
    assert Holds(s, c, e);
    assert forall d, f :: Holds(s', d, f) <==> Holds(s, d, f) && !(d == c && f == e);
  }

  lemma DropKeepsInv(s: State, c: Caller, a: Action, s': State)
    requires Inv(s) && (a.DropCancelled? || a.DropUnlocked?) && Step(s, c, a, s')
    ensures Inv(s')
  {
    var id, e := s.sessions[c].id, s.sessions[c].e;
    forall f ensures Referrers(s', f) == if f == e then Referrers(s, f) - {c} else Referrers(s, f) {
      ReferrersAfter(s, c, Done, f);
    }
    assert c in Referrers(s, e);
    assert s.reg.table[id] == e;
    var refs := s.reg.entries[e].refs - 1;
    assert refs == |Referrers(s', e)|;
    assert refs <= 0 <==> Referrers(s', e) == {};
    assert forall d, f :: Holds(s', d, f) <==> Holds(s, d, f);
    assert s'.reg.table == if refs <= 0 then s.reg.table - {id} else s.reg.table;
    DropShared(s, c, s');
    DropCounted(s, c, s');
    DropExclusive(s, c, s');
  }

  ghost predicate Dropped(s: State, c: Caller, s': State) {
    && c in s.sessions && !s.sessions[c].Done? && !s.sessions[c].Holding? && s.sessions[c].e in s.reg.entries
    && s.sessions[c].id in s.reg.table && s.reg.table[s.sessions[c].id] == s.sessions[c].e
    && s' == State(Release(s.reg, s.sessions[c].id, s.sessions[c].e), s.sessions[c := Done])
    && (s.reg.entries[s.sessions[c].e].refs - 1 <= 0 <==> Referrers(s', s.sessions[c].e) == {})
    && s.reg.entries[s.sessions[c].e].refs - 1 == |Referrers(s', s.sessions[c].e)|
    && (forall f | f != s.sessions[c].e :: Referrers(s', f) == Referrers(s, f))
    && (forall d, f :: Holds(s', d, f) <==> Holds(s, d, f))
  }

  lemma DropShared(s: State, c: Caller, s': State)
    requires Inv(s) && Dropped(s, c, s')
    ensures Shared(s')
  {
    forall d | d in s'.sessions && !s'.sessions[d].Done?
      ensures s'.sessions[d].id in s'.reg.table && s'.reg.table[s'.sessions[d].id] == s'.sessions[d].e
    {
      assert s.sessions[d] == s'.sessions[d];
      assert d in Referrers(s', s.sessions[d].e);
    }
  }

  lemma DropCounted(s: State, c: Caller, s': State)
    requires Inv(s) && Dropped(s, c, s')
    ensures Counted(s')
  {
  }

  lemma DropExclusive(s: State, c: Caller, s': State)
    requires Inv(s) && Dropped(s, c, s')
    ensures Exclusive(s')
  {
  }

  lemma StepKeepsInv(s: State, c: Caller, a: Action, s': State)
    requires Inv(s) && Step(s, c, a, s')
    ensures Inv(s')
  {
    match a
    case Begin(id) => BeginKeepsInv(s, c, id, s');
    case Acquire => AcquireKeepsInv(s, c, s');
    case Cancel => CancelKeepsInv(s, c, s');
    case DropCancelled => DropKeepsInv(s, c, a, s');
    case Unlock => UnlockKeepsInv(s, c, s');
    case DropUnlocked => DropKeepsInv(s, c, a, s');
    case UnlockAgain =>
  }

  // --- every interleaving ---

  ghost predicate Run(states: seq<State>, who: seq<Caller>, what: seq<Action>) {
    && |states| == |who| + 1 == |what| + 1 && states[0] == State(EMPTY, map[])
    && forall i | 0 <= i < |who| :: Step(states[i], who[i], what[i], states[i + 1])
  }

  lemma {:induction false} RunsKeepInv(states: seq<State>, who: seq<Caller>, what: seq<Action>)
    requires Run(states, who, what)
    ensures Inv(states[|who|])
    decreases |who|
  {
    if who != [] {
      var n := |who| - 1;
      RunsKeepInv(states[..n + 1], who[..n], what[..n]);
      StepKeepsInv(states[n], who[n], what[n], states[n + 1]);
    }
  }

  /** Callers that refer to the lock of `id` in any phase. */
  ghost function Interested(s: State, id: Cred): set<Caller> {
    set c | c in s.sessions && !s.sessions[c].Done? && s.sessions[c].id == id
  }

  /** In every interleaving: at most one caller holds a credential's lock; all callers of one credential share
      one entry, whose count is the number of holders, waiters and releasers; a credential nobody refers to has no
      entry in the table. */
  lemma LockSafety(states: seq<State>, who: seq<Caller>, what: seq<Action>, id: Cred)
    requires Run(states, who, what)
    ensures var s := states[|who|];
            && (forall c, d | c in Interested(s, id) && d in Interested(s, id) && s.sessions[c].Holding? && s.sessions[d].Holding? :: c == d)
            && (forall c, d | c in Interested(s, id) && d in Interested(s, id) :: s.sessions[c].e == s.sessions[d].e)
            && (id in s.reg.table <==> Interested(s, id) != {})
            && (id in s.reg.table ==> s.reg.table[id] in s.reg.entries
                                      && s.reg.entries[s.reg.table[id]].refs == |Interested(s, id)|)
  {
    RunsKeepInv(states, who, what);
    var s := states[|who|];
    InterestedRefer(s, id);
  }

  lemma InterestedRefer(s: State, id: Cred)
    requires Inv(s)
    ensures id in s.reg.table ==> Interested(s, id) == Referrers(s, s.reg.table[id])
    ensures forall c | c in Interested(s, id) && s.sessions[c].Holding? :: Holds(s, c, s.sessions[c].e)
  {
    if id in s.reg.table {
      forall c ensures c in Interested(s, id) <==> c in Referrers(s, s.reg.table[id]) {
      }
    }
  }

  /** Unlocking never blocks: a holder's slot is full. And a waiter whose lock nobody holds can take it. */
  lemma LockNeverStuck(states: seq<State>, who: seq<Caller>, what: seq<Action>, c: Caller)
    requires Run(states, who, what) && c in states[|who|].sessions
    ensures var s := states[|who|];
            && (s.sessions[c].Holding? ==> exists s' :: Step(s, c, Unlock, s'))
            && (s.sessions[c].Waiting? && (forall d | d in Interested(s, s.sessions[c].id) :: !s.sessions[d].Holding?)
                ==> exists s' :: Step(s, c, Acquire, s'))
            && (s.sessions[c].Cancelling? ==> exists s' :: Step(s, c, DropCancelled, s'))
            && (s.sessions[c].Unlocking? ==> exists s' :: Step(s, c, DropUnlocked, s'))
  {
    RunsKeepInv(states, who, what);
    var s := states[|who|];
    if !s.sessions[c].Done? {
      var id, e := s.sessions[c].id, s.sessions[c].e;
      InterestedRefer(s, id);
      assert e in s.reg.entries;
      match s.sessions[c] {
        case Holding(_, _) =>
          assert Holds(s, c, e);
          assert Step(s, c, Unlock, State(Fill(s.reg, e, false), s.sessions[c := Unlocking(id, e)]));
        case Waiting(_, _) =>
          if forall d | d in Interested(s, id) :: !s.sessions[d].Holding? {
            forall d ensures !Holds(s, d, e) {
              assert Holds(s, d, e) ==> d in Referrers(s, e);
            }
            assert Step(s, c, Acquire, State(Fill(s.reg, e, true), s.sessions[c := Holding(id, e)]));
          }
        case Cancelling(_, _) =>
          assert Step(s, c, DropCancelled, State(Release(s.reg, id, e), s.sessions[c := Done]));
        case Unlocking(_, _) =>
          assert Step(s, c, DropUnlocked, State(Release(s.reg, id, e), s.sessions[c := Done]));
      }
    }
  }
}
