/** What the gates of a stage are given and what becomes of their replies, told over the calls a run makes
    (internal/pipeline/chain.go): the request each gate sees, the request that goes on, and who decides. */
module StageCalls {
  import opened ByteStrings
  import opened GateRegistry
  import opened GateChain

  // --- the pre-request stage ---

  predicate RewritesBody(c: Call) { c.reply.Modifies? && c.reply.body.Some? }

  predicate RewritesHeaders(c: Call) { c.reply.Modifies? && c.reply.headers.Some? }

  /** The body after the first n calls: that of the last call to replace it, or the original one. */
  ghost predicate BodyAfter(calls: seq<Call>, n: nat, original: Option<string>, body: Option<string>)
    requires n <= |calls|
  {
    || (body == original && forall j | 0 <= j < n :: !RewritesBody(calls[j]))
    || (exists j :: 0 <= j < n && RewritesBody(calls[j]) && body == calls[j].reply.body
                    && forall i | j < i < n :: !RewritesBody(calls[i]))
  }

  ghost predicate HeadersAfter(calls: seq<Call>, n: nat, original: Option<string>, headers: Option<string>)
    requires n <= |calls|
  {
    || (headers == original && forall j | 0 <= j < n :: !RewritesHeaders(calls[j]))
    || (exists j :: 0 <= j < n && RewritesHeaders(calls[j]) && headers == calls[j].reply.headers
                    && forall i | j < i < n :: !RewritesHeaders(calls[i]))
  }

  /** Only a block, a reroute, an unknown reply and the failure of a FailClosed gate end the stage. */
  predicate Stops(c: Call) {
    match c.reply
    case Fails(_) => c.gate.policy == FailClosed
    case Blocks(_) => true
    case Reroutes(_) => true
    case Unknown => true
    case Continues => false
    case Modifies(_, _) => false
  }

  /** The call that ends the stage gives its own payload as the decision; a block or reroute without one, and a reply of
      unknown kind, are an error in the gate's name. */
  ghost predicate Decides(c: Call, derived: Derived, d: Decision) {
    match c.reply
    case Fails(e) => d == Abort(e)
    case Blocks(Some(s)) => d == Block(s, derived)
    case Reroutes(Some(t)) => d == Reroute(t, derived)
    case _ => d == Abort(c.gate.id)
  }

  /** Call i goes to gate i, on the scratch map the call before it left and on the request with the body and headers the
      earlier replies left; nothing else of the request changes. */
  ghost predicate ThreadsAt(b: Behaviour, gates: seq<Gate>, input: Input, scratch: Scratch, calls: seq<Call>, i: nat)
    requires i < |calls| <= |gates|
  {
    var c := calls[i];
    && c.gate == gates[i] && b.call(c.gate, c.input, c.before) == (c.reply, c.after)
    && c.before == (if i == 0 then scratch else calls[i - 1].after)
    && c.input == input.(body := c.input.body, headers := c.input.headers)
    && BodyAfter(calls, i, input.body, c.input.body) && HeadersAfter(calls, i, input.headers, c.input.headers)
  }

  ghost predicate Threads(b: Behaviour, gates: seq<Gate>, input: Input, scratch: Scratch, calls: seq<Call>) {
    |calls| <= |gates| && forall i | 0 <= i < |calls| :: ThreadsAt(b, gates, input, scratch, calls, i)
  }

  /** The stage ends with its first stopping call, which decides; if none stops, every gate was called and the request
      goes on with the last body and headers, as modified exactly if some call replaced one of them. */
  ghost predicate Concludes(gates: seq<Gate>, input: Input, calls: seq<Call>, d: Decision)
    requires input.derived.Some?
  {
    && (forall i | 0 <= i < |calls| - 1 :: !Stops(calls[i]))
    && if calls != [] && Stops(calls[|calls| - 1]) then Decides(calls[|calls| - 1], input.derived.value, d)
       else
         && |calls| == |gates|
         && if exists c :: c in calls && (RewritesBody(c) || RewritesHeaders(c)) then
              && d.Modify? && d.derived == input.derived.value
              && BodyAfter(calls, |calls|, input.body, d.body) && HeadersAfter(calls, |calls|, input.headers, d.headers)
            else d == Continue(input.derived.value)
  }

  // --- the run, from any gate on ---

  lemma BodyBehind(c: Call, calls: seq<Call>, n: nat, original: Option<string>, body: Option<string>)
    requires n <= |calls|
    requires BodyAfter(calls, n, if RewritesBody(c) then c.reply.body else original, body)
    ensures BodyAfter([c] + calls, n + 1, original, body)
  {
    var all := [c] + calls;
    if forall j | 0 <= j < n :: !RewritesBody(calls[j]) {
      assert forall j | 0 < j < n + 1 :: all[j] == calls[j - 1];
      if RewritesBody(c) { assert RewritesBody(all[0]); }
    } else {
      var j :| 0 <= j < n && RewritesBody(calls[j]) && body == calls[j].reply.body
               && forall i | j < i < n :: !RewritesBody(calls[i]);
      assert forall i | 0 < i < n + 1 :: all[i] == calls[i - 1];
      assert RewritesBody(all[j + 1]);
    }
  }

  lemma HeadersBehind(c: Call, calls: seq<Call>, n: nat, original: Option<string>, headers: Option<string>)
    requires n <= |calls|
    requires HeadersAfter(calls, n, if RewritesHeaders(c) then c.reply.headers else original, headers)
    ensures HeadersAfter([c] + calls, n + 1, original, headers)
  {
    var all := [c] + calls;
    if forall j | 0 <= j < n :: !RewritesHeaders(calls[j]) {
      assert forall j | 0 < j < n + 1 :: all[j] == calls[j - 1];
      if RewritesHeaders(c) { assert RewritesHeaders(all[0]); }
    } else {
      var j :| 0 <= j < n && RewritesHeaders(calls[j]) && headers == calls[j].reply.headers
               && forall i | j < i < n :: !RewritesHeaders(calls[i]);
      assert forall i | 0 < i < n + 1 :: all[i] == calls[i - 1];
      assert RewritesHeaders(all[j + 1]);
    }
  }

  /** The request behind one call. */
  function Behind(c: Call): Input {
    c.input.(body := if RewritesBody(c) then c.reply.body else c.input.body,
             headers := if RewritesHeaders(c) then c.reply.headers else c.input.headers)
  }

  lemma ThreadsBehind(b: Behaviour, g: Gate, gates: seq<Gate>, c: Call, calls: seq<Call>)
    requires c.gate == g && b.call(g, c.input, c.before) == (c.reply, c.after)
    requires Threads(b, gates, Behind(c), c.after, calls)
    ensures Threads(b, [g] + gates, c.input, c.before, [c] + calls)
  {
    var all := [c] + calls;
    forall i | 0 <= i < |all| ensures ThreadsAt(b, [g] + gates, c.input, c.before, all, i) {
      if i > 0 {
        assert ThreadsAt(b, gates, Behind(c), c.after, calls, i - 1);
        BodyBehind(c, calls, i - 1, c.input.body, all[i].input.body);
        HeadersBehind(c, calls, i - 1, c.input.headers, all[i].input.headers);
      }
    }
  }

  /** What the stage has come to after its calls. */
  ghost predicate Reaches(gates: seq<Gate>, input: Input, modified: bool, calls: seq<Call>, p: Progress)
    requires input.derived.Some?
  {
    && (forall i | 0 <= i < |calls| - 1 :: !Stops(calls[i]))
    && match p
       case Decided(d) => calls != [] && Stops(calls[|calls| - 1]) && Decides(calls[|calls| - 1], input.derived.value, d)
       case Going(last, m) =>
         && |calls| == |gates| && (calls != [] ==> !Stops(calls[|calls| - 1]))
         && last == input.(body := last.body, headers := last.headers)
         && BodyAfter(calls, |calls|, input.body, last.body) && HeadersAfter(calls, |calls|, input.headers, last.headers)
         && (m <==> modified || exists c :: c in calls && (RewritesBody(c) || RewritesHeaders(c)))
  }

  lemma ReachesBehind(g: Gate, gates: seq<Gate>, c: Call, modified: bool, calls: seq<Call>, p: Progress)
    requires c.input.derived.Some? && !Stops(c)
    requires Reaches(gates, Behind(c), modified || RewritesBody(c) || RewritesHeaders(c), calls, p)
    ensures Reaches([g] + gates, c.input, modified, [c] + calls, p)
  {
    var all := [c] + calls;
    assert forall i | 0 < i < |all| :: all[i] == calls[i - 1];
    assert forall x :: x in all <==> x == c || x in calls;
    if p.Going? {
      BodyBehind(c, calls, |calls|, c.input.body, p.input.body);
      HeadersBehind(c, calls, |calls|, c.input.headers, p.input.headers);
    }
  }

  ghost predicate Follows(b: Behaviour, gates: seq<Gate>, input: Input, modified: bool, scratch: Scratch, r: Run)
    requires input.derived.Some?
  {
    && Threads(b, gates, input, scratch, r.calls) && Reaches(gates, input, modified, r.calls, r.progress)
    && r.scratch == if r.calls == [] then scratch else r.calls[|r.calls| - 1].after
  }

  lemma StoppedAtOnce(b: Behaviour, g: Gate, gates: seq<Gate>, modified: bool, c: Call)
    requires c.gate == g && b.call(g, c.input, c.before) == (c.reply, c.after) && c.input.derived.Some? && Stops(c)
    ensures var r := RunGates(b, [g] + gates, c.input, modified, c.before);
      Follows(b, [g] + gates, c.input, modified, c.before, r)
  {
    assert BodyAfter([c], 0, c.input.body, c.input.body) && HeadersAfter([c], 0, c.input.headers, c.input.headers);
    assert ThreadsAt(b, [g] + gates, c.input, c.before, [c], 0);
  }

  lemma GoesOn(b: Behaviour, g: Gate, gates: seq<Gate>, modified: bool, c: Call)
    requires c.gate == g && b.call(g, c.input, c.before) == (c.reply, c.after) && c.input.derived.Some? && !Stops(c)
    ensures var r := RunGates(b, gates, Behind(c), modified || RewritesBody(c) || RewritesHeaders(c), c.after);
      RunGates(b, [g] + gates, c.input, modified, c.before) == Run(r.progress, r.scratch, [c] + r.calls)
  {
    RunHead(b, g, gates, c.input, modified, c.before);
  }

  lemma FollowsBehind(b: Behaviour, g: Gate, gates: seq<Gate>, modified: bool, c: Call, r: Run)
    requires c.gate == g && b.call(g, c.input, c.before) == (c.reply, c.after) && c.input.derived.Some? && !Stops(c)
    requires Follows(b, gates, Behind(c), modified || RewritesBody(c) || RewritesHeaders(c), c.after, r)
    ensures Follows(b, [g] + gates, c.input, modified, c.before, Run(r.progress, r.scratch, [c] + r.calls))
  {
    ThreadsBehind(b, g, gates, c, r.calls);
    ReachesBehind(g, gates, c, modified, r.calls, r.progress);
  }

  lemma {:induction false} RunFollows(b: Behaviour, gates: seq<Gate>, input: Input, modified: bool, scratch: Scratch)
    requires input.derived.Some?
    ensures Follows(b, gates, input, modified, scratch, RunGates(b, gates, input, modified, scratch))
  {
    if gates != [] {
      var g, rest := gates[0], gates[1..];
      assert gates == [g] + rest;
      var (reply, after) := b.call(g, input, scratch);
      var c := Call(g, input, scratch, reply, after);
      if Stops(c) {
        StoppedAtOnce(b, g, rest, modified, c);
      } else {
        var m := modified || RewritesBody(c) || RewritesHeaders(c);
        RunFollows(b, rest, Behind(c), m, after);
        GoesOn(b, g, rest, modified, c);
        FollowsBehind(b, g, rest, modified, c, RunGates(b, rest, Behind(c), m, after));
      }
    }
  }

  /** For every stage, on every request: each gate is given the request as the replies before it left it, and the stage
      ends as its calls say. The request enters the stage uncommitted, with the derived metadata it came with or else
      the ones computed from it. */
  lemma CallsTellDecision(b: Behaviour, gates: seq<Gate>, input: Input, scratch: Scratch)
    ensures var open := input.(committed := false);
      var entering := if input.derived.Some? then open else open.(derived := Some(b.derive(open)));
      var calls := RunOf(b, gates, input, scratch).calls;
      && Threads(b, gates, entering, scratch, calls)
      && Concludes(gates, entering, calls, DecisionOf(b, gates, input, scratch))
      && RunOf(b, gates, input, scratch).scratch == if calls == [] then scratch else calls[|calls| - 1].after
  {
    RunFollows(b, gates, Prepared(b, input), false, scratch);
  }

  // --- the chunk stage ---

  /** The map chunk gate k finds: the request's, with index and size of this chunk, as the gates before k left it. */
  ghost predicate ChunkMaps(call: ChunkGate, gates: seq<Gate>, body: string, maps: seq<Scratch>) {
    && 0 < |maps| <= |gates| + 1
    && forall k | 0 <= k < |maps| - 1 :: maps[k + 1] == call(gates[k], body, maps[k]).1
  }

  ghost predicate ChunkDecides(g: Gate, r: ChunkReply, d: ChunkDecision) {
    match r
    case Pass => false
    case ChunkFails(e) => g.policy == FailClosed && d == ChunkAbort(e)
    case Replace(body) => d == Replaced(body)
    case Drop => d == Dropped
    case ChunkUnknown => d == ChunkAbort(g.id)
  }

  /** The first gate that does not let the chunk pass decides and no later gate is called; a gate lets it pass by saying
      so or by failing open. Every gate finds the map as the gates before it left it. */
  lemma {:induction false} FirstVerdictDecides(call: ChunkGate, gates: seq<Gate>, body: string, shared: Scratch)
    returns (maps: seq<Scratch>)
    ensures var r := RunChunk(call, gates, body, shared);
      && r.at <= |gates| && ChunkMaps(call, gates, body, maps) && maps[0] == shared && maps[|maps| - 1] == r.shared
      && r.at < |maps|
      && (forall k | 0 <= k < r.at ::
            var reply := call(gates[k], body, maps[k]).0;
            reply.Pass? || (reply.ChunkFails? && gates[k].policy == FailOpen))
      && if r.at == |gates| then |maps| == |gates| + 1 && r.decision == PassThrough
         else |maps| == r.at + 2 && ChunkDecides(gates[r.at], call(gates[r.at], body, maps[r.at]).0, r.decision)
  {
    if gates == [] {
      maps := [shared];
    } else {
      var (reply, after) := call(gates[0], body, shared);
      if LetsPass(gates[0], reply) {
        var rest := FirstVerdictDecides(call, gates[1..], body, after);
        maps := [shared] + rest;
        assert forall k | 0 < k < |maps| :: maps[k] == rest[k - 1];
        assert forall k | 0 < k < |gates| :: gates[k] == gates[1..][k - 1];
      } else {
        maps := [shared, after];
      }
    }
  }
}
