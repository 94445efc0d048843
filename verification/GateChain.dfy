/** Running one stage's ordered gates (internal/pipeline/chain.go). A gate is an arbitrary function
    of the working input and of the scratch map (`Meta`) the gates of a request share. */
module GateChain {
  import opened ByteStrings
  import opened GateGraph
  import opened GateRegistry
  import opened GateBoot
  import opened GateBootTheorems

  type Scratch = map<string, string>
  datatype Derived = Derived(requestId: string, model: string, headerNames: string)

  datatype Input = Input(requestId: string, model: string, headers: Option<string>, body: Option<string>,
                         committed: bool, derived: Option<Derived>)

  datatype Reply =
    | Fails(error: string)
    | Continues
    | Modifies(body: Option<string>, headers: Option<string>)
    | Blocks(synthetic: Option<string>)
    | Reroutes(target: Option<string>)
    | Unknown

  /** `call` is what a gate does; `derive` computes the request-scoped metadata. */
  datatype Behaviour = Behaviour(call: (Gate, Input, Scratch) -> (Reply, Scratch), derive: Input -> Derived)

  datatype Decision =
    | Continue(derived: Derived)
    | Modify(body: Option<string>, headers: Option<string>, derived: Derived)
    | Block(synthetic: string, derived: Derived)
    | Reroute(target: string, derived: Derived)
    | Abort(error: string)

  datatype Call = Call(gate: Gate, input: Input, before: Scratch, reply: Reply, after: Scratch)

  /** Where a stage stands after some gates: still going, or decided. */
  datatype Progress =
    | Going(input: Input, modified: bool)
    | Decided(decision: Decision)

  datatype Run = Run(progress: Progress, scratch: Scratch, calls: seq<Call>)

  function Prepared(b: Behaviour, input: Input): (r: Input) {
    var open := input.(committed := false);
    if open.derived.Some? then open else open.(derived := Some(b.derive(open)))
  }

  /** What one reply does to the stage; `input.derived` is set by then. */
  function Settle(g: Gate, input: Input, modified: bool, reply: Reply): Progress
    requires input.derived.Some?
  {
    match reply
    case Fails(e) => if g.policy == FailClosed then Decided(Abort(e)) else Going(input, modified)
    case Continues => Going(input, modified)
    case Modifies(body, headers) =>
      var next := if body.Some? then input.(body := body) else input;
      var last := if headers.Some? then next.(headers := headers) else next;
      Going(last, modified || body.Some? || headers.Some?)
    case Blocks(s) => if s.None? then Decided(Abort(g.id)) else Decided(Block(s.value, input.derived.value))
    case Reroutes(t) => if t.None? then Decided(Abort(g.id)) else Decided(Reroute(t.value, input.derived.value))
    case Unknown => Decided(Abort(g.id))
  }

  function RunGates(b: Behaviour, gates: seq<Gate>, input: Input, modified: bool, scratch: Scratch): (r: Run)
    requires input.derived.Some?
    ensures r.progress.Going? ==> r.progress.input.derived == input.derived
  {
    if gates == [] then Run(Going(input, modified), scratch, [])
    else
      var (reply, after) := b.call(gates[0], input, scratch);
      var call := Call(gates[0], input, scratch, reply, after);
      match Settle(gates[0], input, modified, reply)
      case Decided(d) => Run(Decided(d), after, [call])
      case Going(next, m) =>
        var rest := RunGates(b, gates[1..], next, m, after);
        rest.(calls := [call] + rest.calls)
  }

  function Outcome(p: Progress): Decision
    requires p.Going? ==> p.input.derived.Some?
  {
    match p
    case Decided(d) => d
    case Going(input, modified) =>
      if modified then Modify(input.body, input.headers, input.derived.value) else Continue(input.derived.value)
  }

  function RunOf(b: Behaviour, gates: seq<Gate>, input: Input, scratch: Scratch): Run {
    RunGates(b, gates, Prepared(b, input), false, scratch)
  }

  function DecisionOf(b: Behaviour, gates: seq<Gate>, input: Input, scratch: Scratch): Decision {
    Outcome(RunOf(b, gates, input, scratch).progress)
  }

  lemma RunHead(b: Behaviour, g: Gate, rest: seq<Gate>, input: Input, modified: bool, scratch: Scratch)
    requires input.derived.Some?
    ensures var (reply, after) := b.call(g, input, scratch);
            var call := Call(g, input, scratch, reply, after);
            RunGates(b, [g] + rest, input, modified, scratch) ==
              match Settle(g, input, modified, reply)
              case Decided(d) => Run(Decided(d), after, [call])
              case Going(next, m) =>
                var r := RunGates(b, rest, next, m, after);
                Run(r.progress, r.scratch, [call] + r.calls)
  {
    assert ([g] + rest)[1..] == rest;
  }

  function Following(calls: seq<Call>, r: Run): Run { r.(calls := calls + r.calls) }

  /** Gate i in front of the gates after it. */
  lemma FollowGate(b: Behaviour, gates: seq<Gate>, i: nat, input: Input, modified: bool, scratch: Scratch, calls: seq<Call>)
    requires input.derived.Some? && i < |gates|
    ensures var (reply, after) := b.call(gates[i], input, scratch);
            var made := calls + [Call(gates[i], input, scratch, reply, after)];
            Following(calls, RunGates(b, gates[i..], input, modified, scratch)) ==
              match Settle(gates[i], input, modified, reply)
              case Decided(d) => Run(Decided(d), after, made)
              case Going(next, m) => Following(made, RunGates(b, gates[i + 1..], next, m, after))
  {
    assert gates[i..] == [gates[i]] + gates[i + 1..];
    RunHead(b, gates[i], gates[i + 1..], input, modified, scratch);
    var (reply, after) := b.call(gates[i], input, scratch);
    var call := Call(gates[i], input, scratch, reply, after);
    var p := Settle(gates[i], input, modified, reply);
    if p.Going? {
      var rest := RunGates(b, gates[i + 1..], p.input, p.modified, after).calls;
      assert calls + ([call] + rest) == (calls + [call]) + rest;
    }
  }

  /** One gate's reply, applied to the working input. */
  method ApplyReply(g: Gate, input: Input, modified: bool, reply: Reply) returns (p: Progress)
    requires input.derived.Some?
    ensures p == Settle(g, input, modified, reply)
  {
    var work, changed := input, modified;
    match reply {
      case Fails(e) =>
        if g.policy == FailClosed { return Decided(Abort(e)); }
      case Continues =>
      case Modifies(body, headers) =>
        if body.Some? {
          work := work.(body := body);
          changed := true;
        }
        if headers.Some? {
          work := work.(headers := headers);
          changed := true;
        }
      case Blocks(s) =>
        if s.None? { return Decided(Abort(g.id)); }
        return Decided(Block(s.value, work.derived.value));
      case Reroutes(t) =>
        if t.None? { return Decided(Abort(g.id)); }
        return Decided(Reroute(t.value, work.derived.value));
      case Unknown =>
        return Decided(Abort(g.id));
    }
    return Going(work, changed);
  }

  /** Chain.PreRequest. */
  method PreRequestStage(b: Behaviour, gates: seq<Gate>, input: Input, scratch: Scratch)
    returns (d: Decision, after: Scratch, ghost calls: seq<Call>)
    ensures d == DecisionOf(b, gates, input, scratch)
    ensures after == RunOf(b, gates, input, scratch).scratch
    ensures calls == RunOf(b, gates, input, scratch).calls
  {
    var work := input.(committed := false);
    if work.derived.None? {
      work := work.(derived := Some(b.derive(work)));
    }
    var modified := false;
    after, calls := scratch, [];
    ghost var run := RunOf(b, gates, input, scratch);
    for i := 0 to |gates|
      invariant work.derived.Some?
      invariant run == Following(calls, RunGates(b, gates[i..], work, modified, after))
    {
      var g := gates[i];
      var before := after;
      var (reply, touched) := b.call(g, work, before);
      after := touched;
      FollowGate(b, gates, i, work, modified, before, calls);
      calls := calls + [Call(g, work, before, reply, after)];
      var p := ApplyReply(g, work, modified, reply);
      if p.Decided? {
        return p.decision, after, calls;
      }
      work, modified := p.input, p.modified;
    }
    if modified {
      d := Modify(work.body, work.headers, work.derived.value);
    } else {
      d := Continue(work.derived.value);
    }
  }

  /** Only a stage that no gate decided reports Continue or Modify. */
  lemma {:induction false} DecidedIsFinal(b: Behaviour, gates: seq<Gate>, input: Input, modified: bool, scratch: Scratch)
    requires input.derived.Some?
    ensures var p := RunGates(b, gates, input, modified, scratch).progress;
            p.Decided? ==> !p.decision.Continue? && !p.decision.Modify?
  {
    if gates != [] {
      var (reply, after) := b.call(gates[0], input, scratch);
      var p := Settle(gates[0], input, modified, reply);
      if p.Going? { DecidedIsFinal(b, gates[1..], p.input, p.modified, after); }
    }
  }

  // --- a stage that lets the request through ran every gate ---

  lemma {:induction false} PassedRunsAll(b: Behaviour, gates: seq<Gate>, input: Input, modified: bool, scratch: Scratch)
    requires input.derived.Some?
    requires RunGates(b, gates, input, modified, scratch).progress.Going?
    ensures var calls := RunGates(b, gates, input, modified, scratch).calls;
            && |calls| == |gates|
            && forall i | 0 <= i < |gates| :: calls[i].gate == gates[i] && (calls[i].reply.Fails? ==> gates[i].policy == FailOpen)
  {
    if gates != [] {
      var (reply, after) := b.call(gates[0], input, scratch);
      var next := Settle(gates[0], input, modified, reply);
      PassedRunsAll(b, gates[1..], next.input, next.modified, after);
    }
  }

  predicate WritesSecurity(g: Gate) { WritesSecurityField(DeclaredOf(g).alters) }

  ghost predicate Feeds(w: Gate, g: Gate) {
    exists f :: f in DeclaredOf(w).alters && f in DeclaredOf(g).observes
  }

  /** A pre-request order of registered gates that respects their dependencies. */
  ghost predicate Booted(entries: Entries, pre: seq<Gate>) {
    && IsTopological(StageNodes(entries, PreRequest), StageEdges(entries, PreRequest), Ids(pre))
    && forall i | 0 <= i < |pre| :: pre[i].id in entries && pre[i] == entries[pre[i].id].gate
  }

  lemma BuildBoots(entries: Entries, order: Order)
    requires CoherentEntries(entries) && BuildOutcome(entries, Ok(order))
    ensures Booted(entries, order.pre)
  {
    BootOrdersLeast(entries, Ok(order), PreRequest);
    BootOrdersRegistered(entries, Ok(order), PreRequest);
    assert forall i | 0 <= i < |order.pre| :: order.pre[i] in OrderOf(order, PreRequest);
  }

  /** Where a pre-request gate stands in the boot order. */
  lemma PositionOf(entries: Entries, pre: seq<Gate>, name: string) returns (k: nat)
    requires Booted(entries, pre) && name in StageNodes(entries, PreRequest)
    ensures k < |pre| && pre[k] == entries[name].gate && pre[k].id == name
  {
    var ids := Ids(pre);
    assert name in Elems(ids);
    k :| 0 <= k < |ids| && ids[k] == name;
  }

  /** In the boot order of a stage a gate stands once, after every other gate that feeds it. */
  lemma FeedersFirst(entries: Entries, pre: seq<Gate>, name: string) returns (k: nat)
    requires CoherentEntries(entries) && Booted(entries, pre) && name in StageNodes(entries, PreRequest)
    ensures k < |pre| && pre[k] == entries[name].gate
    ensures forall j | 0 <= j < |pre| && j != k :: pre[j].id != name
    ensures forall w | w in StageNodes(entries, PreRequest) && w != name && Feeds(entries[w].gate, entries[name].gate) ::
              exists j :: 0 <= j < k && pre[j] == entries[w].gate
  {
    k := PositionOf(entries, pre, name);
    forall j | 0 <= j < |pre| && j != k ensures pre[j].id != name {
      assert Ids(pre)[j] != Ids(pre)[k];
    }
    forall w | w in StageNodes(entries, PreRequest) && w != name && Feeds(entries[w].gate, entries[name].gate)
      ensures exists j :: 0 <= j < k && pre[j] == entries[w].gate
    {
      var j := PositionOf(entries, pre, w);
      assert Depends(entries[name].declared, w, entries[w].declared);
      assert (Ids(pre)[j], Ids(pre)[k]) in StageEdges(entries, PreRequest);
    }
  }

  /** Whenever a chain built from the registry lets a request through, every pre-request gate that writes a
      security field was called exactly once, did not fail, and was called after every other gate of the
      stage that writes a field it reads. */
  lemma SecurityGatesRan(entries: Entries, order: Order, b: Behaviour, input: Input, scratch: Scratch, name: string)
    returns (k: nat)
    requires CoherentEntries(entries) && BuildOutcome(entries, Ok(order))
    requires DecisionOf(b, order.pre, input, scratch).Continue? || DecisionOf(b, order.pre, input, scratch).Modify?
    requires name in StageNodes(entries, PreRequest) && WritesSecurity(entries[name].gate)
    ensures var calls := RunOf(b, order.pre, input, scratch).calls;
            && k < |calls| && calls[k].gate == entries[name].gate && !calls[k].reply.Fails?
            && (forall j | 0 <= j < |calls| && j != k :: calls[j].gate.id != name)
            && (forall w | w in StageNodes(entries, PreRequest) && w != name
                           && Feeds(entries[w].gate, entries[name].gate) ::
                  exists j :: 0 <= j < k && calls[j].gate == entries[w].gate)
  {
    DecidedIsFinal(b, order.pre, Prepared(b, input), false, scratch);
    PassedRunsAll(b, order.pre, Prepared(b, input), false, scratch);
    BuildBoots(entries, order);
    k := FeedersFirst(entries, order.pre, name);
    assert Coherent(name, entries[name].gate);
    var calls := RunOf(b, order.pre, input, scratch).calls;
    forall w | w in StageNodes(entries, PreRequest) && w != name && Feeds(entries[w].gate, entries[name].gate)
      ensures exists j :: 0 <= j < k && calls[j].gate == entries[w].gate
    {
      var j :| 0 <= j < k && order.pre[j] == entries[w].gate;
      assert calls[j].gate == order.pre[j];
    }
  }

  // --- concatenation ---

  /** A run carried on with further gates. */
  function Chained(b: Behaviour, first: Run, more: seq<Gate>): Run
    requires first.progress.Going? ==> first.progress.input.derived.Some?
  {
    match first.progress
    case Decided(_) => first
    case Going(next, m) => Following(first.calls, RunGates(b, more, next, m, first.scratch))
  }

  lemma ChainedHead(b: Behaviour, call: Call, first: Run, more: seq<Gate>)
    requires first.progress.Going? ==> first.progress.input.derived.Some?
    ensures Following([call], Chained(b, first, more)) == Chained(b, Following([call], first), more)
  {
    if first.progress.Going? {
      var rest := RunGates(b, more, first.progress.input, first.progress.modified, first.scratch).calls;
      assert [call] + (first.calls + rest) == ([call] + first.calls) + rest;
    }
  }

  lemma {:induction false} RunGatesConcat(b: Behaviour, g1: seq<Gate>, g2: seq<Gate>, input: Input, modified: bool,
                                          scratch: Scratch)
    requires input.derived.Some?
    ensures RunGates(b, g1 + g2, input, modified, scratch) == Chained(b, RunGates(b, g1, input, modified, scratch), g2)
  {
    if g1 == [] {
      assert g1 + g2 == g2;
      assert Following([], RunGates(b, g2, input, modified, scratch)) == RunGates(b, g2, input, modified, scratch);
    } else {
      var g, rest := g1[0], g1[1..];
      var (reply, after) := b.call(g, input, scratch);
      assert g1 == [g] + rest && g1 + g2 == [g] + (rest + g2);
      RunHead(b, g, rest, input, modified, scratch);
      RunHead(b, g, rest + g2, input, modified, scratch);
      var p := Settle(g, input, modified, reply);
      if p.Going? {
        RunGatesConcat(b, rest, g2, p.input, p.modified, after);
        var call := Call(g, input, scratch, reply, after);
        ChainedHead(b, call, RunGates(b, rest, p.input, p.modified, after), g2);
      }
    }
  }

  /** The modified flag changes only how an undecided stage is reported. */
  lemma {:induction false} ModifiedFlag(b: Behaviour, gates: seq<Gate>, input: Input, modified: bool, scratch: Scratch)
    requires input.derived.Some?
    ensures var off := RunGates(b, gates, input, false, scratch);
            var run := RunGates(b, gates, input, modified, scratch);
            match off.progress
            case Decided(_) => run == off
            case Going(last, m) => run == Run(Going(last, modified || m), off.scratch, off.calls)
  {
    if gates != [] {
      var (reply, after) := b.call(gates[0], input, scratch);
      var p := Settle(gates[0], input, false, reply);
      if p.Going? {
        ModifiedFlag(b, gates[1..], p.input, p.modified, after);
        ModifiedFlag(b, gates[1..], p.input, modified || p.modified, after);
      }
    }
  }

  /** A stage whose gates change nothing leaves its input as it was. */
  lemma {:induction false} UnmodifiedInput(b: Behaviour, gates: seq<Gate>, input: Input, scratch: Scratch)
    requires input.derived.Some?
    ensures var r := RunGates(b, gates, input, false, scratch).progress;
            r.Going? ==> r.input == input.(body := r.input.body, headers := r.input.headers)
                         && (!r.modified ==> r.input == input)
  {
    if gates != [] {
      var (reply, after) := b.call(gates[0], input, scratch);
      var p := Settle(gates[0], input, false, reply);
      if p.Going? {
        UnmodifiedInput(b, gates[1..], p.input, after);
        ModifiedFlag(b, gates[1..], p.input, p.modified, after);
      }
    }
  }

  /** The request as a caller rewrites it from a decision, before running further gates. */
  function Rewritten(input: Input, d: Decision): Input {
    match d
    case Modify(body, headers, derived) => input.(body := body, headers := headers, derived := Some(derived))
    case Continue(derived) => input.(derived := Some(derived))
    case _ => input
  }

  /** Running two chains one after the other, each on the request the previous decision left, is running their
      concatenation: an earlier Modify is not lost when the later chain only continues. */
  lemma ChainsCompose(b: Behaviour, g1: seq<Gate>, g2: seq<Gate>, input: Input, scratch: Scratch)
    ensures var d1 := DecisionOf(b, g1, input, scratch);
            var s1 := RunOf(b, g1, input, scratch).scratch;
            var d2 := DecisionOf(b, g2, Rewritten(input, d1), s1);
            DecisionOf(b, g1 + g2, input, scratch) ==
              if RunOf(b, g1, input, scratch).progress.Decided? then d1
              else if d2.Continue? then d1
              else d2
  {
    var ready := Prepared(b, input);
    RunGatesConcat(b, g1, g2, ready, false, scratch);
    UnmodifiedInput(b, g1, ready, scratch);
    var first := RunOf(b, g1, input, scratch);
    if first.progress.Going? {
      var next := first.progress.input;
      assert Prepared(b, Rewritten(input, DecisionOf(b, g1, input, scratch))) == next;
      DecidedIsFinal(b, g2, next, first.progress.modified, first.scratch);
      ModifiedFlag(b, g2, next, first.progress.modified, first.scratch);
      UnmodifiedInput(b, g2, next, first.scratch);
    }
  }

  // --- failing FailOpen gates ---

  /** The gates of a run other than the FailOpen ones that failed in it. */
  function Erased(b: Behaviour, gates: seq<Gate>, input: Input, modified: bool, scratch: Scratch): seq<Gate>
    requires input.derived.Some?
  {
    if gates == [] then []
    else
      var (reply, after) := b.call(gates[0], input, scratch);
      match Settle(gates[0], input, modified, reply)
      case Decided(d) => gates
      case Going(next, m) =>
        var rest := Erased(b, gates[1..], next, m, after);
        if reply.Fails? then rest else [gates[0]] + rest
  }

  predicate FailedOpen(c: Call) { c.reply.Fails? && c.gate.policy == FailOpen }

  /** No gate that failed open touched the shared scratch map. */
  predicate CleanFailures(calls: seq<Call>) {
    forall c | c in calls && FailedOpen(c) :: c.after == c.before
  }

  /** The chain restores the input of a gate that failed open, but not the scratch map it wrote to:
      here a failing FailOpen gate turns a Continue into a Block. */
  lemma FailOpenLeaksScratch() returns (b: Behaviour, gates: seq<Gate>, input: Input)
    ensures var bare := Erased(b, gates, Prepared(b, input), false, map[]);
            DecisionOf(b, gates, input, map[]).Block? && DecisionOf(b, bare, input, map[]).Continue?
  {
    var a := Gate("a", {PreRequest}, FailOpen, None);
    var z := Gate("z", {PreRequest}, FailClosed, None);
    b := Behaviour(
      (g: Gate, i: Input, s: Scratch) =>
        if g.id == "a" then (Fails("down"), s["k" := "v"])
        else if "k" in s then (Blocks(Some("denied")), s) else (Continues, s),
      (i: Input) => Derived("", "", ""));
    gates := [a, z];
    input := Input("", "", None, None, false, None);
    var ready := Prepared(b, input);
    assert gates[1..] == [z] && gates[1..][1..] == [];
    assert RunGates(b, [z], ready, false, map["k" := "v"]).progress.Decided?;
    assert RunGates(b, [], ready, false, map[]).progress == Going(ready, false);
    assert [z][1..] == [];
    assert RunGates(b, [z], ready, false, map[]).progress == Going(ready, false);
    assert Erased(b, [z], ready, false, map["k" := "v"]) == [z];
    assert Erased(b, gates, ready, false, map[]) == [z];
  }

  // --- exactly when failing open is transparent ---

  /** The run of `gates` seen beside the same run without the gates that failed open in it, whose scratch map stands at
      `shadow`: whenever a gate that stays is called, and at the end, the two maps agree. */
  predicate Seamless(b: Behaviour, gates: seq<Gate>, input: Input, modified: bool, scratch: Scratch, shadow: Scratch)
    requires input.derived.Some?
  {
    if gates == [] then scratch == shadow
    else
      var (reply, after) := b.call(gates[0], input, scratch);
      match Settle(gates[0], input, modified, reply)
      case Decided(_) => scratch == shadow
      case Going(next, m) =>
        if reply.Fails? then Seamless(b, gates[1..], next, m, after, shadow)
        else scratch == shadow && Seamless(b, gates[1..], next, m, after, after)
  }

  /** Gates that behave like `b` in its run of `gates`. */
  ghost predicate SameCalls(b': Behaviour, b: Behaviour, gates: seq<Gate>, input: Input, modified: bool, scratch: Scratch)
    requires input.derived.Some?
  {
    RunGates(b', gates, input, modified, scratch) == RunGates(b, gates, input, modified, scratch)
  }

  /** Whatever the gates do elsewhere, and whichever gates follow, the run decides as it does without the gates that
      failed open. */
  ghost predicate Transparent(b: Behaviour, gates: seq<Gate>, input: Input, modified: bool, scratch: Scratch, shadow: Scratch)
    requires input.derived.Some?
  {
    var bare := Erased(b, gates, input, modified, scratch);
    forall b': Behaviour, rest: seq<Gate> | SameCalls(b', b, gates, input, modified, scratch) ::
      Outcome(RunGates(b', gates + rest, input, modified, scratch).progress)
      == Outcome(RunGates(b', bare + rest, input, modified, shadow).progress)
  }

  lemma SameHead(b': Behaviour, b: Behaviour, gates: seq<Gate>, input: Input, modified: bool, scratch: Scratch)
    requires input.derived.Some? && gates != [] && SameCalls(b', b, gates, input, modified, scratch)
    ensures b'.call(gates[0], input, scratch) == b.call(gates[0], input, scratch)
    ensures var (reply, after) := b.call(gates[0], input, scratch);
      var p := Settle(gates[0], input, modified, reply);
      p.Going? ==> SameCalls(b', b, gates[1..], p.input, p.modified, after)
  {
    var run, run' := RunGates(b, gates, input, modified, scratch), RunGates(b', gates, input, modified, scratch);
    assert run.calls[0] == run'.calls[0];
    var (reply, after) := b.call(gates[0], input, scratch);
    var p := Settle(gates[0], input, modified, reply);
    if p.Going? {
      var rest := RunGates(b, gates[1..], p.input, p.modified, after);
      var rest' := RunGates(b', gates[1..], p.input, p.modified, after);
      assert run.calls[1..] == rest.calls && run'.calls[1..] == rest'.calls;
    }
  }

  lemma {:induction false} SeamlessTransparent(b: Behaviour, b': Behaviour, gates: seq<Gate>, rest: seq<Gate>, input: Input,
                                               modified: bool, scratch: Scratch, shadow: Scratch)
    requires input.derived.Some? && Seamless(b, gates, input, modified, scratch, shadow)
    requires SameCalls(b', b, gates, input, modified, scratch)
    ensures var run := RunGates(b', gates + rest, input, modified, scratch);
      var bare := RunGates(b', Erased(b, gates, input, modified, scratch) + rest, input, modified, shadow);
      bare.progress == run.progress && bare.scratch == run.scratch
    decreases |gates|
  {
    if gates == [] {
      assert gates + rest == rest;
    } else {
      var g, tail := gates[0], gates[1..];
      var (reply, after) := b.call(g, input, scratch);
      SameHead(b', b, gates, input, modified, scratch);
      assert gates + rest == [g] + (tail + rest);
      RunHead(b', g, tail + rest, input, modified, scratch);
      match Settle(g, input, modified, reply)
      case Decided(_) =>
      case Going(next, m) =>
        var bare := Erased(b, tail, next, m, after);
        SeamlessTransparent(b, b', tail, rest, next, m, after, if reply.Fails? then shadow else after);
        if !reply.Fails? {
          assert ([g] + bare) + rest == [g] + (bare + rest);
          RunHead(b', g, bare + rest, input, modified, scratch);
        }
    }
  }

  /** The behaviour that answers one call differently. */
  function Override(b: Behaviour, g: Gate, input: Input, scratch: Scratch, reply: Reply): Behaviour {
    b.(call := (g': Gate, i: Input, s: Scratch) =>
         if g' == g && i == input && s == scratch then (reply, s) else b.call(g', i, s))
  }

  /** A gate that is not among those of a run cannot change it. */
  lemma {:induction false} OverrideElsewhere(b: Behaviour, b': Behaviour, gates: seq<Gate>, input: Input, modified: bool,
                                             scratch: Scratch)
    requires input.derived.Some?
    requires forall g, i, s | g in gates :: b'.call(g, i, s) == b.call(g, i, s)
    ensures SameCalls(b', b, gates, input, modified, scratch)
  {
    if gates != [] {
      var (reply, after) := b.call(gates[0], input, scratch);
      assert b'.call(gates[0], input, scratch) == b.call(gates[0], input, scratch);
      var p := Settle(gates[0], input, modified, reply);
      if p.Going? { OverrideElsewhere(b, b', gates[1..], p.input, p.modified, after); }
    }
  }

  /** A block no run that decided d can be mistaken for. */
  function OtherBlock(d: Decision): (s: string)
    ensures d.Block? ==> s != d.synthetic
  {
    if d.Block? && d.synthetic == "" then "x" else ""
  }

  /** Where the two maps differ some gate can tell: the gate that is called on different maps, or a gate z behind them. */
  lemma {:induction false} SeamShows(b: Behaviour, gates: seq<Gate>, input: Input, modified: bool, scratch: Scratch,
                                     shadow: Scratch, z: Gate)
    returns (b': Behaviour, rest: seq<Gate>)
    requires input.derived.Some? && NoDup(gates) && z !in gates
    requires !Seamless(b, gates, input, modified, scratch, shadow)
    ensures SameCalls(b', b, gates, input, modified, scratch) && b'.derive == b.derive
    ensures forall g, i, s | g !in gates && g != z :: b'.call(g, i, s) == b.call(g, i, s)
    ensures Outcome(RunGates(b', gates + rest, input, modified, scratch).progress)
         != Outcome(RunGates(b', Erased(b, gates, input, modified, scratch) + rest, input, modified, shadow).progress)
    decreases |gates|
  {
    if gates == [] {
      rest := [z];
      b' := Override(Override(b, z, input, scratch, Continues), z, input, shadow, Blocks(Some("")));
      assert gates + rest == [z] + [] && Erased(b, gates, input, modified, scratch) + rest == [z] + [];
      RunHead(b', z, [], input, modified, scratch);
      RunHead(b', z, [], input, modified, shadow);
    } else {
      var g, tail := gates[0], gates[1..];
      var (reply, after) := b.call(g, input, scratch);
      var p := Settle(g, input, modified, reply);
      if p.Decided? || (!reply.Fails? && scratch != shadow) {
        b', rest := SeamAtHead(b, gates, input, modified, scratch, shadow);
      } else {
        assert g !in tail;
        var next := if reply.Fails? then shadow else after;
        b', rest := SeamShows(b, tail, p.input, p.modified, after, next, z);
        assert b'.call(g, input, scratch) == b.call(g, input, scratch);
        SameTail(b', b, gates, input, modified, scratch);
        var bare := Erased(b, tail, p.input, p.modified, after);
        assert gates + rest == [g] + (tail + rest);
        RunHead(b', g, tail + rest, input, modified, scratch);
        if !reply.Fails? {
          assert ([g] + bare) + rest == [g] + (bare + rest);
          RunHead(b', g, bare + rest, input, modified, scratch);
        }
      }
    }
  }

  lemma SameTail(b': Behaviour, b: Behaviour, gates: seq<Gate>, input: Input, modified: bool, scratch: Scratch)
    requires input.derived.Some? && gates != []
    requires b'.call(gates[0], input, scratch) == b.call(gates[0], input, scratch)
    requires var (reply, after) := b.call(gates[0], input, scratch);
      var p := Settle(gates[0], input, modified, reply);
      p.Going? ==> SameCalls(b', b, gates[1..], p.input, p.modified, after)
    ensures SameCalls(b', b, gates, input, modified, scratch)
  {
  }

  /** The first gate stays and is called on different maps: let it block on the one it did not see. */
  lemma SeamAtHead(b: Behaviour, gates: seq<Gate>, input: Input, modified: bool, scratch: Scratch, shadow: Scratch)
    returns (b': Behaviour, rest: seq<Gate>)
    requires input.derived.Some? && NoDup(gates) && gates != [] && scratch != shadow
    requires var (reply, _) := b.call(gates[0], input, scratch);
      Settle(gates[0], input, modified, reply).Decided? || !reply.Fails?
    ensures SameCalls(b', b, gates, input, modified, scratch) && b'.derive == b.derive
    ensures forall g, i, s | g !in gates :: b'.call(g, i, s) == b.call(g, i, s)
    ensures Outcome(RunGates(b', gates + rest, input, modified, scratch).progress)
         != Outcome(RunGates(b', Erased(b, gates, input, modified, scratch) + rest, input, modified, shadow).progress)
  {
    var g, tail := gates[0], gates[1..];
    var (reply, after) := b.call(g, input, scratch);
    var run := RunGates(b, gates, input, modified, scratch);
    rest := [];
    b' := Override(b, g, input, shadow, Blocks(Some(OtherBlock(Outcome(run.progress)))));
    assert g !in tail;
    var p := Settle(g, input, modified, reply);
    if p.Going? { OverrideElsewhere(b, b', tail, p.input, p.modified, after); }
    SameTail(b', b, gates, input, modified, scratch);
    var bare := Erased(b, gates, input, modified, scratch);
    assert gates + rest == gates && bare + rest == bare && bare[0] == g;
    assert bare == [g] + bare[1..];
    RunHead(b', g, bare[1..], input, modified, shadow);
  }

  function FreshId(gates: seq<Gate>): (id: string)
    ensures |id| > 0 && forall g | g in gates :: |g.id| < |id|
  {
    if gates == [] then "x" else gates[0].id + FreshId(gates[1..])
  }

  /** The chain without the gates that failed open decides the same and leaves the same scratch map, if nobody could see
      what those gates wrote. */
  lemma FailOpenTransparent(b: Behaviour, gates: seq<Gate>, input: Input, scratch: Scratch)
    requires Seamless(b, gates, Prepared(b, input), false, scratch, scratch)
    ensures var bare := Erased(b, gates, Prepared(b, input), false, scratch);
            DecisionOf(b, bare, input, scratch) == DecisionOf(b, gates, input, scratch)
            && RunOf(b, bare, input, scratch).scratch == RunOf(b, gates, input, scratch).scratch
  {
    SeamlessTransparent(b, b, gates, [], Prepared(b, input), false, scratch, scratch);
    var bare := Erased(b, gates, Prepared(b, input), false, scratch);
    assert gates + [] == gates && bare + [] == bare;
  }

  /** FailOpen is transparent, whatever the gates do on other maps and whichever gates follow, if and only if no gate that
      stays, and nothing behind the chain, could have seen what the failed gates wrote. */
  lemma FailOpenTransparentIff(b: Behaviour, gates: seq<Gate>, input: Input, scratch: Scratch)
    requires NoDup(gates)
    ensures Transparent(b, gates, Prepared(b, input), false, scratch, scratch)
       <==> Seamless(b, gates, Prepared(b, input), false, scratch, scratch)
  {
    var ready := Prepared(b, input);
    if Seamless(b, gates, ready, false, scratch, scratch) {
      forall b': Behaviour, rest: seq<Gate> | SameCalls(b', b, gates, ready, false, scratch)
        ensures Outcome(RunGates(b', gates + rest, ready, false, scratch).progress)
             == Outcome(RunGates(b', Erased(b, gates, ready, false, scratch) + rest, ready, false, scratch).progress)
      {
        SeamlessTransparent(b, b', gates, rest, ready, false, scratch, scratch);
      }
    } else {
      var z := Gate(FreshId(gates), {PreRequest}, FailClosed, None);
      var b', rest := SeamShows(b, gates, ready, false, scratch, scratch, z);
    }
  }

  /** For a single gate that fails open: it can be left out exactly when it leaves the scratch map as it found it. */
  lemma FailedGateTransparentIff(b: Behaviour, g: Gate, input: Input, scratch: Scratch)
    requires g.policy == FailOpen && b.call(g, Prepared(b, input), scratch).0.Fails?
    ensures Transparent(b, [g], Prepared(b, input), false, scratch, scratch)
       <==> b.call(g, Prepared(b, input), scratch).1 == scratch
  {
    FailOpenTransparentIff(b, [g], input, scratch);
    assert [g][1..] == [];
  }

  /** Gates that failed open and wrote nothing leave no seam. */
  lemma {:induction false} CleanIsSeamless(b: Behaviour, gates: seq<Gate>, input: Input, modified: bool, scratch: Scratch)
    requires input.derived.Some? && CleanFailures(RunGates(b, gates, input, modified, scratch).calls)
    ensures Seamless(b, gates, input, modified, scratch, scratch)
  {
    if gates != [] {
      var (reply, after) := b.call(gates[0], input, scratch);
      var p := Settle(gates[0], input, modified, reply);
      if p.Going? {
        var calls := RunGates(b, gates, input, modified, scratch).calls;
        var rest := RunGates(b, gates[1..], p.input, p.modified, after).calls;
        assert calls == [calls[0]] + rest && calls[0] in calls;
        assert forall c | c in rest :: c in calls;
        CleanIsSeamless(b, gates[1..], p.input, p.modified, after);
      }
    }
  }

  // --- the chunk stage ---

  datatype ChunkReply = ChunkFails(error: string) | Pass | Replace(body: string) | Drop | ChunkUnknown
  datatype ChunkDecision = PassThrough | Replaced(body: string) | Dropped | ChunkAbort(error: string)

  /** What a gate does with a chunk and with the map the request's gates share. */
  type ChunkGate = (Gate, string, Scratch) -> (ChunkReply, Scratch)

  /** The gate lets the chunk continue to the next gate. */
  predicate LetsPass(g: Gate, r: ChunkReply) { r.Pass? || (r.ChunkFails? && g.policy == FailOpen) }

  /** What a gate that does not let the chunk pass decides. */
  function VerdictOf(g: Gate, r: ChunkReply): ChunkDecision {
    match r
    case Replace(body) => Replaced(body)
    case Drop => Dropped
    case ChunkFails(e) => ChunkAbort(e)
    case _ => ChunkAbort(g.id)
  }

  /** One gate's reply to a chunk: None lets it pass. */
  method JudgeChunk(g: Gate, reply: ChunkReply) returns (d: Option<ChunkDecision>)
    ensures d == if LetsPass(g, reply) then None else Some(VerdictOf(g, reply))
  {
    match reply {
      case ChunkFails(e) =>
        if g.policy == FailClosed { return Some(ChunkAbort(e)); }
        return None;
      case Pass => return None;
      case Replace(body) => return Some(Replaced(body));
      case Drop => return Some(Dropped);
      case ChunkUnknown => return Some(ChunkAbort(g.id));
    }
  }

  /** `at` is the position of the gate that decided, or the number of gates. */
  datatype ChunkRun = ChunkRun(decision: ChunkDecision, shared: Scratch, at: nat)

  function RunChunk(call: ChunkGate, gates: seq<Gate>, body: string, shared: Scratch): ChunkRun {
    if gates == [] then ChunkRun(PassThrough, shared, 0)
    else
      var (reply, after) := call(gates[0], body, shared);
      if !LetsPass(gates[0], reply) then ChunkRun(VerdictOf(gates[0], reply), after, 0)
      else var rest := RunChunk(call, gates[1..], body, after); rest.(at := rest.at + 1)
  }

  /** Chain.OnResponseChunk, on the shared map with this chunk's index and size in it; `number` prints a number. No
      reroute exists; what a gate that failed open wrote to the shared map stays here too. */
  method ChunkStage(call: ChunkGate, gates: seq<Gate>, body: string, index: nat, shared: Scratch, number: nat -> string)
    returns (d: ChunkDecision, after: Scratch, k: nat)
    ensures ChunkRun(d, after, k)
         == RunChunk(call, gates, body, shared["chunk_index" := number(index)]["chunk_bytes" := number(|body|)])
  {
    after := shared["chunk_index" := number(index)];
    after := after["chunk_bytes" := number(|body|)];
    ghost var run := RunChunk(call, gates, body, after);
    k := 0;
    while k < |gates|
      invariant k <= |gates|
      invariant var rest := RunChunk(call, gates[k..], body, after); run == rest.(at := rest.at + k)
    {
      assert gates[k..][1..] == gates[k + 1..];
      var (reply, touched) := call(gates[k], body, after);
      after := touched;
      var verdict := JudgeChunk(gates[k], reply);
      if verdict.Some? {
        return verdict.value, after, k;
      }
      k := k + 1;
    }
    d := PassThrough;
  }
}
