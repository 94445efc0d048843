/** The life of one upstream stream (internal/executors/stream.go): its single consumer, the idle watcher of each event
    read, and any number of Close callers, interleaved. A section under the stream's mutex, a channel operation, a scan
    and a body close are one step each; what is read is not part of this module. */
module StreamLife {

  datatype Option<T> = None | Some(value: T)

  datatype Outcome = CleanEnd | IdleTimeout | Canceled | PeerFailure | ContextDone

  /** What readEvent returns: a chunk, a keep-alive to skip, or the end. */
  datatype ReadResult = AChunk | KeepAlive | TheEnd(outcome: Outcome)

  datatype Consumer = Outside | Looping | Reading | Joining(result: ReadResult)

  datatype Watcher = Gone | Armed | Fired | WatcherClosing

  datatype Closer = Calling | Closing | Finished

  datatype Actor = TheWatcher | ACloser(id: nat)

  /** The close-once gate; `flagged` after its holder set the closed flag. */
  datatype Once = Fresh | Running(holder: Actor, flagged: bool) | Done

  datatype Returned = GotChunk | GotOver(outcome: Outcome)

  datatype State = State(
    terminal: Option<Outcome>, closed: bool, idleFired: bool, once: Once, bodyCloses: nat,
    consumer: Consumer, watcher: Watcher, stopped: bool, closers: map<nat, Closer>, returned: seq<Returned>)

  const INITIAL := State(None, false, false, Fresh, 0, Outside, Gone, false, map[], [])

  /** `Scans` is a line that does not complete the event; `ScanFails(ours)` a read error, ours when closing the body
      caused it. */
  datatype Event =
    | Recv | Arm(timed: bool) | ContextCanceled
    | Scans | ScansChunk | ScansKeepAlive | ScansEnd | ScanFails(ours: bool)
    | Join
    | Fire | SeeStop | Enter(a: Actor) | Flag(a: Actor) | CloseBody(a: Actor)
    | CallClose(id: nat)

  function Record(s: State, o: Outcome): State {
    var t := if s.terminal.None? then Some(o) else s.terminal;
    s.(terminal := t, consumer := Outside, returned := s.returned + [GotOver(t.value)])
  }

  /** How a read error is classified. */
  function Classify(s: State): Outcome {
    if s.idleFired then IdleTimeout else if s.closed then Canceled else PeerFailure
  }

  /** readEvent is about to return: its watcher is told to stop, and waited for. */
  function Leave(s: State, r: ReadResult): State { s.(consumer := Joining(r), stopped := true) }

  predicate AtGate(s: State, a: Actor) {
    match a
    case TheWatcher => s.watcher.Fired?
    case ACloser(id) => id in s.closers && s.closers[id].Calling?
  }

  function Moved(s: State, a: Actor, inside: bool): State {
    match a
    case TheWatcher => s.(watcher := if inside then WatcherClosing else Gone)
    case ACloser(id) => s.(closers := s.closers[id := if inside then Closing else Finished])
  }

  ghost predicate Step(s: State, e: Event, s': State) {
    match e
    case Recv =>
      s.consumer.Outside? &&
      s' == if s.terminal.Some? then s.(returned := s.returned + [GotOver(s.terminal.value)]) else s.(consumer := Looping)
    case Arm(timed) =>
      s.consumer.Looping? && s' == s.(consumer := Reading, watcher := if timed then Armed else Gone, stopped := false)
    case ContextCanceled =>
      (s.consumer.Looping? && s' == Record(s, ContextDone)) || (s.consumer.Reading? && s' == Leave(s, TheEnd(ContextDone)))
    case Scans => s.consumer.Reading? && s' == s
    case ScansChunk => s.consumer.Reading? && s' == Leave(s, AChunk)
    case ScansKeepAlive => s.consumer.Reading? && s' == Leave(s, KeepAlive)
    case ScansEnd => s.consumer.Reading? && s' == Leave(s, TheEnd(CleanEnd))
    case ScanFails(ours) =>
      s.consumer.Reading? && (ours ==> s.bodyCloses > 0) && s' == Leave(s, TheEnd(Classify(s)))
    case Join =>
      s.consumer.Joining? && s.watcher.Gone? &&
      (match s.consumer.result
       case AChunk => s' == s.(consumer := Outside, returned := s.returned + [GotChunk])
       case KeepAlive => s' == s.(consumer := Looping)
       case TheEnd(o) => s' == Record(s, o))
    case Fire => s.watcher.Armed? && s' == s.(watcher := Fired, idleFired := true)
    case SeeStop => s.watcher.Armed? && s.stopped && s' == s.(watcher := Gone)
    case Enter(a) =>
      AtGate(s, a) && !s.once.Running? &&
      s' == if s.once.Done? then Moved(s, a, false) else Moved(s, a, true).(once := Running(a, false))
    case Flag(a) => s.once == Running(a, false) && s' == s.(closed := true, once := Running(a, true))
    case CloseBody(a) =>
      s.once == Running(a, true) && s' == Moved(s, a, false).(once := Done, bodyCloses := s.bodyCloses + 1)
    case CallClose(id) => id !in s.closers && s' == s.(closers := s.closers[id := Calling])
  }

  // --- the invariant ---

  predicate Inside(s: State, a: Actor) {
    match a
    case TheWatcher => s.watcher.WatcherClosing?
    case ACloser(id) => id in s.closers && s.closers[id].Closing?
  }

  /** The gate's holder is the one actor inside it, and the body is closed exactly once the gate is done. */
  ghost predicate GateInv(s: State) {
    && (s.once.Running? <==> exists a :: Inside(s, a))
    && (forall a | Inside(s, a) :: s.once.Running? && s.once.holder == a)
    && (s.once.Running? ==> Inside(s, s.once.holder))
    && s.bodyCloses == (if s.once.Done? then 1 else 0)
    && (s.closed <==> s.once.Done? || (s.once.Running? && s.once.flagged))
  }

  /** A watcher lives only inside the event read that armed it, and firing it leaves a mark. */
  ghost predicate WatcherInv(s: State) {
    && (s.watcher != Gone ==> s.consumer.Reading? || s.consumer.Joining?)
    && (s.consumer.Joining? ==> s.stopped)
    && (s.watcher.Fired? || s.watcher.WatcherClosing? ==> s.idleFired)
    && (s.once.Running? && s.once.holder.TheWatcher? ==> s.idleFired)
  }

  /** What Recv returned so far: chunks, then only the terminal outcome. */
  ghost predicate HistoryInv(s: State) {
    && (s.terminal.None? ==> forall i | 0 <= i < |s.returned| :: s.returned[i] == GotChunk)
    && (s.terminal.Some? ==> s.consumer.Outside? && exists n :: 0 <= n < |s.returned| && EndsAt(s, n))
  }

  ghost predicate EndsAt(s: State, n: nat)
    requires n <= |s.returned|
  {
    && (forall i | 0 <= i < n :: s.returned[i] == GotChunk)
    && forall i | n <= i < |s.returned| :: s.terminal.Some? && s.returned[i] == GotOver(s.terminal.value)
  }

  /** A reported timeout or cancellation was really ours. */
  ghost predicate BlameInv(s: State) {
    && Blamed(s, s.terminal)
    && (s.consumer.Joining? && s.consumer.result.TheEnd? ==> Blamed(s, Some(s.consumer.result.outcome)))
  }

  predicate Blamed(s: State, o: Option<Outcome>) {
    (o == Some(IdleTimeout) ==> s.idleFired) && (o == Some(Canceled) ==> s.closed)
  }

  ghost predicate Inv(s: State) { GateInv(s) && WatcherInv(s) && HistoryInv(s) && BlameInv(s) }

  lemma GateEvents(s: State, e: Event, s': State)
    requires GateInv(s) && WatcherInv(s) && Step(s, e, s') && (e.Enter? || e.Flag? || e.CloseBody?)
    ensures GateInv(s')
  {
    var a := e.a;
    forall b | b != a ensures Inside(s', b) == Inside(s, b) {}
    match e
    case Enter(_) =>
      assert Inside(s', a) <==> s.once.Fresh?;
      assert !Inside(s, a);
    case Flag(_) => assert Inside(s', a) == Inside(s, a);
    case CloseBody(_) => assert !Inside(s', a);
  }

  lemma OtherEventsKeepGate(s: State, e: Event, s': State)
    requires GateInv(s) && WatcherInv(s) && Step(s, e, s') && !(e.Enter? || e.Flag? || e.CloseBody?)
    ensures GateInv(s')
  {
    forall b ensures Inside(s', b) == Inside(s, b) {
      assert e.Arm? ==> s.watcher.Gone?;
    }
  }

  lemma KeepsWatcher(s: State, e: Event, s': State)
    requires GateInv(s) && WatcherInv(s) && Step(s, e, s')
    ensures WatcherInv(s')
  {
    assert s.once.Running? ==> Inside(s, s.once.holder);
  }

  lemma KeepsHistory(s: State, e: Event, s': State)
    requires HistoryInv(s) && Step(s, e, s')
    ensures HistoryInv(s')
  {
    ReturnsGrow(s, e, s');
    if s.terminal.Some? {
      var n :| 0 <= n < |s.returned| && EndsAt(s, n);
      assert EndsAt(s', n);
    } else if s'.terminal.Some? {
      assert EndsAt(s', |s.returned|);
    }
  }

  /** How one step adds to what Recv returned. */
  lemma ReturnsGrow(s: State, e: Event, s': State)
    requires Step(s, e, s') && (s.terminal.Some? ==> s.consumer.Outside?)
    ensures s.terminal.Some? ==> s'.terminal == s.terminal && s'.consumer.Outside?
    ensures s.terminal.None? && s'.terminal.Some? ==> s'.consumer.Outside? && s'.returned == s.returned + [GotOver(s'.terminal.value)]
    ensures s.terminal.None? && s'.terminal.None? ==> s'.returned == s.returned || s'.returned == s.returned + [GotChunk]
    ensures s.terminal.Some? ==> s'.returned == s.returned || s'.returned == s.returned + [GotOver(s.terminal.value)]
  {
  }

  lemma KeepsBlame(s: State, e: Event, s': State)
    requires BlameInv(s) && Step(s, e, s')
    ensures BlameInv(s')
  {
  }

  lemma StepKeepsInv(s: State, e: Event, s': State)
    requires Inv(s) && Step(s, e, s')
    ensures Inv(s')
  {
    if e.Enter? || e.Flag? || e.CloseBody? { GateEvents(s, e, s'); } else { OtherEventsKeepGate(s, e, s'); }
    KeepsWatcher(s, e, s');
    KeepsHistory(s, e, s');
    KeepsBlame(s, e, s');
  }

  ghost predicate IsRun(states: seq<State>, events: seq<Event>) {
    && |states| == |events| + 1 && states[0] == INITIAL
    && forall i :: 0 <= i < |events| ==> Step(states[i], events[i], states[i + 1])
  }

  lemma {:induction false} RunsKeepInv(states: seq<State>, events: seq<Event>, k: nat)
    requires IsRun(states, events) && k <= |events|
    ensures Inv(states[k])
  {
    if k > 0 {
      RunsKeepInv(states, events, k - 1);
      StepKeepsInv(states[k - 1], events[k - 1], states[k]);
    }
  }

  // --- what a run guarantees ---

  /** At every moment the body has been closed at most once; at most one actor is closing it; a watcher is alive only
      while the event read that armed it is; and Recv has returned chunks followed by copies of one outcome. */
  lemma StreamSafety(states: seq<State>, events: seq<Event>, k: nat)
    requires IsRun(states, events) && k <= |events|
    ensures var s := states[k];
      && s.bodyCloses <= 1
      && (forall a, b :: Inside(s, a) && Inside(s, b) ==> a == b)
      && (s.watcher != Gone ==> s.consumer.Reading? || s.consumer.Joining?)
      && exists n :: 0 <= n <= |s.returned| && EndsAt(s, n) && (n < |s.returned| <==> s.terminal.Some?)
  {
    RunsKeepInv(states, events, k);
    var s := states[k];
    if s.terminal.Some? {
      var n :| 0 <= n < |s.returned| && EndsAt(s, n);
      assert n < |s.returned|;
    } else {
      assert EndsAt(s, |s.returned|);
    }
  }

  /** Once set, the terminal outcome never changes. */
  lemma {:induction false} TerminalIsFinal(states: seq<State>, events: seq<Event>, j: nat, k: nat)
    requires IsRun(states, events) && j <= k <= |events| && states[j].terminal.Some?
    ensures states[k].terminal == states[j].terminal
    decreases k
  {
    if j < k {
      TerminalIsFinal(states, events, j, k - 1);
      RunsKeepInv(states, events, k - 1);
      assert Step(states[k - 1], events[k - 1], states[k]);
    }
  }

  /** Nobody but the consumer records the outcome: only a join of its watcher, or its own look at the context, can. */
  lemma OnlyConsumerRecords(s: State, e: Event, s': State)
    requires Step(s, e, s') && s'.terminal != s.terminal
    ensures (e.Join? || e.ContextCanceled?) && s.terminal.None? && !s.consumer.Outside? && s'.consumer.Outside?
  {
  }

  /** A read error that closing the body caused is never blamed on the peer: it is a timeout when the watcher fired and
      a cancellation otherwise. */
  lemma OurCloseNeverBlamesPeer(states: seq<State>, events: seq<Event>, k: nat)
    requires IsRun(states, events) && k < |events| && events[k] == ScanFails(true)
    ensures states[k + 1].consumer
         == Joining(TheEnd(if states[k].idleFired then IdleTimeout else Canceled))
  {
    RunsKeepInv(states, events, k);
    assert Step(states[k], events[k], states[k + 1]);
  }

  /** Neither a timeout nor a cancellation is ever reported without the watcher, or a close, having acted. */
  lemma BlameIsDeserved(states: seq<State>, events: seq<Event>, k: nat)
    requires IsRun(states, events) && k <= |events|
    ensures states[k].terminal == Some(IdleTimeout) ==> states[k].idleFired
    ensures states[k].terminal == Some(Canceled) ==> states[k].closed
  {
    RunsKeepInv(states, events, k);
  }

  // --- nobody waits forever ---

  /** Steps that need neither the caller nor the upstream. */
  predicate Internal(e: Event) { e.Join? || e.SeeStop? || e.Enter? || e.Flag? || e.CloseBody? }

  /** Somebody is waiting for another: the consumer for its watcher, or an actor at or inside the gate. */
  ghost predicate Waiting(s: State) {
    s.consumer.Joining? || s.watcher.Fired? || s.watcher.WatcherClosing?
    || exists id :: id in s.closers && !s.closers[id].Finished?
  }

  ghost predicate CanStep(s: State) { exists e, s' :: Internal(e) && Step(s, e, s') }

  lemma HolderCanStep(s: State)
    requires GateInv(s) && s.once.Running?
    ensures CanStep(s)
  {
    var a := s.once.holder;
    if s.once.flagged {
      var s' := Moved(s, a, false).(once := Done, bodyCloses := s.bodyCloses + 1);
      assert Internal(CloseBody(a)) && Step(s, CloseBody(a), s');
    } else {
      var s' := s.(closed := true, once := Running(a, true));
      assert Internal(Flag(a)) && Step(s, Flag(a), s');
    }
  }

  lemma AtGateCanStep(s: State, a: Actor)
    requires AtGate(s, a) && !s.once.Running?
    ensures CanStep(s)
  {
    var s' := if s.once.Done? then Moved(s, a, false) else Moved(s, a, true).(once := Running(a, false));
    assert Internal(Enter(a)) && Step(s, Enter(a), s');
  }

  /** In no reachable state is somebody waiting and nobody able to move: the watcher cannot deadlock with the reader. */
  lemma NeverDeadlocked(states: seq<State>, events: seq<Event>, k: nat)
    requires IsRun(states, events) && k <= |events| && Waiting(states[k])
    ensures CanStep(states[k])
  {
    RunsKeepInv(states, events, k);
    var s := states[k];
    if s.once.Running? {
      HolderCanStep(s);
    } else if s.watcher.Fired? {
      AtGateCanStep(s, TheWatcher);
    } else if id :| id in s.closers && !s.closers[id].Finished? {
      assert !Inside(s, ACloser(id));
      AtGateCanStep(s, ACloser(id));
    } else {
      assert !Inside(s, TheWatcher);
      if s.watcher.Armed? {
        assert Internal(SeeStop) && Step(s, SeeStop, s.(watcher := Gone));
      } else {
        var s' := match s.consumer.result
          case AChunk => s.(consumer := Outside, returned := s.returned + [GotChunk])
          case KeepAlive => s.(consumer := Looping)
          case TheEnd(o) => Record(s, o);
        assert Internal(Join) && Step(s, Join, s');
      }
    }
  }

  /** How much waiting is left: every internal step uses some of it up. */
  ghost function Debt(s: State): nat {
    |Unfinished(s)| * 4
    + (match s.watcher case Gone => 0 case Armed => 5 case Fired => 4 case WatcherClosing => 4)
    + (if s.consumer.Joining? then 1 else 0)
    + (if s.once.Fresh? then 3 else if s.once.Done? then 0 else if s.once.flagged then 1 else 2)
  }

  ghost function Unfinished(s: State): set<nat> { set id | id in s.closers && !s.closers[id].Finished? }

  lemma InternalStepsRunOut(s: State, e: Event, s': State)
    requires GateInv(s) && Internal(e) && Step(s, e, s')
    ensures Debt(s') < Debt(s)
  {
    match e
    case Enter(a) => GateMoves(s, a, s.once.Fresh?);
    case CloseBody(a) => GateMoves(s, a, false);
    case _ =>
  }

  lemma GateMoves(s: State, a: Actor, inside: bool)
    requires AtGate(s, a) || Inside(s, a)
    ensures a.ACloser? ==> Unfinished(Moved(s, a, inside)) == if inside then Unfinished(s) else Unfinished(s) - {a.id}
    ensures a.ACloser? ==> a.id in Unfinished(s)
    ensures a.TheWatcher? ==> Unfinished(Moved(s, a, inside)) == Unfinished(s)
  {
  }
}
