/** Exactly which chunks survive a frame (internal/gateway/gateway.go), and exactly when a relayed stream decodes to the
    chunks that were sent (internal/executors/stream.go). */
module SseRoundTrip {
  import opened Sse

  /** Every chunk of a stream, and how it ends. */
  function Drain(s: Bytes): (seq<Chunk>, Terminal)
    decreases |s|
  {
    match RecvFrom(s)
    case Over(terminal) => ([], terminal)
    case Got(c, rest) => var d := Drain(rest); ([c] + d.0, d.1)
  }

  predicate AllFramable(cs: seq<Chunk>) { cs == [] || (Framable(cs[0]) && AllFramable(cs[1..])) }

  function Normals(cs: seq<Chunk>): seq<Chunk> {
    if cs == [] then [] else [Normal(cs[0])] + Normals(cs[1..])
  }

  // --- names and ids are single lines ---

  predicate Headline(event: Bytes, id: Bytes) { Unbroken(event) && Unbroken(id) }

  predicate Headlines(cs: seq<Chunk>) { cs == [] || (Headline(cs[0].event, cs[0].id) && Headlines(cs[1..])) }

  lemma AbsorbHeadline(p: Partial, line: Bytes)
    requires line != "" && Unbroken(line) && Headline(p.event, p.id)
    ensures Headline(Absorb(p, line).event, Absorb(p, line).id)
  {
  }

  lemma {:induction false} ReadHeadline(s: Bytes, p: Partial)
    requires Headline(p.event, p.id)
    ensures var r := ReadFrom(s, p); r.Event? ==> Headline(r.event, r.id)
    decreases |s|
  {
    var scan := ScanLine(s);
    if scan.Line? && scan.text != "" {
      AbsorbHeadline(p, scan.text);
      ReadHeadline(scan.rest, Absorb(p, scan.text));
    }
  }

  /** No chunk the decoder returns has a line feed in its event name or id. */
  lemma {:induction false} RecvHeadline(s: Bytes)
    ensures var r := RecvFrom(s); r.Got? ==> Headline(r.chunk.event, r.chunk.id)
    decreases |s|
  {
    ReadHeadline(s, NOTHING);
    var r := ReadFrom(s, NOTHING);
    if r.Event? && r.data == "" && r.event == "" && r.id == "" { RecvHeadline(r.rest); }
  }

  lemma {:induction false} DrainHeadlines(s: Bytes)
    ensures Headlines(Drain(s).0)
    decreases |s|
  {
    RecvHeadline(s);
    if RecvFrom(s).Got? { DrainHeadlines(RecvFrom(s).rest); }
  }

  lemma NormalHeadline(c: Chunk)
    requires Headline(Normal(c).event, Normal(c).id)
    ensures Headline(c.event, c.id)
  {
  }

  lemma {:induction false} NormalHeadlines(cs: seq<Chunk>)
    requires Headlines(Normals(cs))
    ensures Headlines(cs)
  {
    if cs != [] { NormalHeadlines(cs[1..]); }
  }

  // --- what a frame can be worth ---

  function Size(c: Chunk): nat { |c.event| + |c.id| + |c.data| + 1 }

  function Weight(cs: seq<Chunk>): nat { if cs == [] then 0 else Size(cs[0]) + Weight(cs[1..]) }

  /** Bytes of content, and one for each chunk, in everything decoded from s. */
  function Worth(s: Bytes): nat { Weight(Drain(s).0) }

  function ReadWorth(r: Read): nat {
    match r
    case Event(event, id, data, rest) =>
      if data == "" && event == "" && id == "" then Worth(rest)
      else if event == "" && IsDone(data) then 0
      else Size(Chunk(event, id, data)) + Worth(rest)
    case _ => 0
  }

  lemma WorthIsRead(s: Bytes)
    ensures Worth(s) == ReadWorth(ReadFrom(s, NOTHING))
  {
    var r := ReadFrom(s, NOTHING);
    if r.Event? && r.data == "" && r.event == "" && r.id == "" { assert RecvFrom(s) == RecvFrom(r.rest); }
  }

  function PartialSize(p: Partial): nat { |p.event| + |p.id| + |JoinData(p.data)| + 1 }

  lemma {:induction false} JoinAppend(lines: seq<Bytes>, v: Bytes)
    ensures |JoinData(lines + [v])| == |JoinData(lines)| + |v| + if lines == [] then 0 else 1
  {
    if |lines| > 1 {
      assert (lines + [v])[1..] == lines[1..] + [v];
      JoinAppend(lines[1..], v);
    }
  }

  lemma AbsorbSize(p: Partial, line: Bytes)
    requires line != ""
    ensures PartialSize(Absorb(p, line)) <= PartialSize(p) + |line|
  {
    JoinAppend(p.data, SplitField(line).1);
  }

  lemma CompletedWorth(p: Partial, rest: Bytes)
    ensures ReadWorth(Completed(p, rest)) <= PartialSize(p) + Worth(rest)
  {
  }

  /** Whatever stands before a blank line, it decodes to no more than its own bytes. */
  lemma {:induction false} TextWorth(d: Bytes, more: Bytes, p: Partial)
    ensures ReadWorth(ReadFrom(d + ("\n\n" + more), p)) <= PartialSize(p) + |d| + Worth(more)
    decreases |d|
  {
    var i := IndexOf(d, '\n');
    var line := d[..i];
    var rest := if i < |d| then d[i + 1..] + ("\n\n" + more) else "\n" + more;
    assert d + ("\n\n" + more) == line + "\n" + rest by {
      if i < |d| { assert d == line + "\n" + d[i + 1..]; } else { assert "\n\n" + more == "\n" + ("\n" + more); }
    }
    ScanOneLine(line, rest);
    if |line| < MAX_LINE {
      var text := DropCR(line);
      if text == "" {
        CompletedWorth(p, rest);
        if i < |d| { TextWorth(d[i + 1..], more, NOTHING); } else { BlankLineCompletes(more, NOTHING); }
        WorthIsRead(rest);
      } else {
        var q := Absorb(p, text);
        AbsorbSize(p, text);
        if i < |d| {
          TextWorth(d[i + 1..], more, q);
        } else {
          BlankLineCompletes(more, q);
          CompletedWorth(q, more);
        }
      }
    }
  }

  lemma DataBreaks(data: Bytes, i: nat, more: Bytes)
    requires i < |data| && data[i] == '\n'
    ensures FieldText("data", data) + ("\n" + more) == FieldText("data", data[..i]) + (data[i + 1..] + ("\n\n" + more))
  {
    var x, y := data[..i], data[i + 1..];
    assert data == x + "\n" + y;
    assert "data" + ": " + (x + "\n" + y) + "\n" + ("\n" + more) == ("data" + ": " + x + "\n") + (y + ("\n\n" + more));
  }

  lemma HeadedSize(c: Chunk)
    ensures PartialSize(Headed(c)) <= |Normal(c).event| + |c.id| + 1 && Headed(c).data == []
  {
  }

  /** A line feed in the data always costs: the frame decodes to less than the chunk. */
  lemma BrokenFrameWorth(c: Chunk, more: Bytes)
    requires Headline(c.event, c.id) && !Unbroken(c.data)
    ensures Worth(Frame(c) + more) < Size(Normal(c)) + Worth(more)
  {
    var i := IndexOf(c.data, '\n');
    var d := c.data[i + 1..];
    WorthIsRead(Frame(c) + more);
    ReadHead(c, more);
    HeadedSize(c);
    DataBreaks(c.data, i, more);
    ReadField("data", c.data[..i], d + ("\n\n" + more), Headed(c));
    TextWorth(d, more, Set(Headed(c), "data", DropCR(c.data[..i])));
  }

  lemma WholeFrameWorth(c: Chunk, more: Bytes)
    requires Headline(c.event, c.id) && Unbroken(c.data)
    ensures Worth(Frame(c) + more) <= Size(Normal(c)) + Worth(more)
    ensures Worth(Frame(c) + more) == Size(Normal(c)) + Worth(more) ==> Framable(c)
  {
    ReadFrame(c, more);
    WorthIsRead(Frame(c) + more);
  }

  lemma FrameWorth(c: Chunk, more: Bytes)
    requires Headline(c.event, c.id)
    ensures Worth(Frame(c) + more) <= Size(Normal(c)) + Worth(more)
    ensures Worth(Frame(c) + more) == Size(Normal(c)) + Worth(more) ==> Framable(c)
  {
    if Unbroken(c.data) { WholeFrameWorth(c, more); } else { BrokenFrameWorth(c, more); }
  }

  /** A chunk is read back from its frame, with what follows left over, exactly when no field holds a line feed, ends in
      a carriage return or outgrows a line, and the chunk is neither empty nor the sentinel. */
  lemma FrameReadsBackIff(c: Chunk, tail: Bytes)
    ensures RecvFrom(Frame(c) + tail) == Got(Normal(c), tail) <==> Framable(c)
  {
    if Framable(c) { RecvFrame(c, tail); }
    if RecvFrom(Frame(c) + tail) == Got(Normal(c), tail) { ReadBackIsFramable(c, tail); }
  }

  lemma ReadBackIsFramable(c: Chunk, tail: Bytes)
    requires RecvFrom(Frame(c) + tail) == Got(Normal(c), tail)
    ensures Framable(c)
  {
    ReceivedWorth(Frame(c) + tail, Normal(c), tail);
    WorthyIsFramable(c, tail);
  }

  lemma WorthyIsFramable(c: Chunk, tail: Bytes)
    requires Headline(Normal(c).event, Normal(c).id) && Worth(Frame(c) + tail) == Size(Normal(c)) + Worth(tail)
    ensures Framable(c)
  {
    NormalHeadline(c);
    FrameWorth(c, tail);
  }

  lemma ReceivedWorth(s: Bytes, c: Chunk, rest: Bytes)
    requires RecvFrom(s) == Got(c, rest)
    ensures Drain(s) == ([c] + Drain(rest).0, Drain(rest).1)
    ensures Worth(s) == Size(c) + Worth(rest) && Headline(c.event, c.id)
  {
    RecvHeadline(s);
  }

  // --- lists of frames ---

  lemma FramesHead(cs: seq<Chunk>, tail: Bytes)
    requires cs != []
    ensures Frames(cs) + tail == Frame(cs[0]) + (Frames(cs[1..]) + tail)
  {
    assert Frames(cs) + tail == (Frame(cs[0]) + Frames(cs[1..])) + tail;
  }

  lemma FrameDrain(c: Chunk, rest: Bytes)
    requires Framable(c)
    ensures Drain(Frame(c) + rest) == ([Normal(c)] + Drain(rest).0, Drain(rest).1)
  {
    RecvFrame(c, rest);
    ReceivedWorth(Frame(c) + rest, Normal(c), rest);
  }

  lemma {:induction false} FramesDrain(cs: seq<Chunk>, tail: Bytes)
    requires AllFramable(cs)
    ensures Drain(Frames(cs) + tail) == (Normals(cs) + Drain(tail).0, Drain(tail).1)
  {
    var end := Drain(tail).0;
    if cs == [] {
      assert "" + tail == tail && [] + end == end;
    } else {
      FramesHead(cs, tail);
      FrameDrain(cs[0], Frames(cs[1..]) + tail);
      FramesDrain(cs[1..], tail);
      Prepend(Normal(cs[0]), Normals(cs[1..]), end);
    }
  }

  lemma Prepend(c: Chunk, cs: seq<Chunk>, end: seq<Chunk>)
    ensures [c] + (cs + end) == ([c] + cs) + end
  {
  }

  lemma {:induction false} FramesWorth(cs: seq<Chunk>, tail: Bytes)
    requires Headlines(cs)
    ensures Worth(Frames(cs) + tail) <= Weight(Normals(cs)) + Worth(tail)
    ensures Worth(Frames(cs) + tail) == Weight(Normals(cs)) + Worth(tail) ==> AllFramable(cs)
  {
    if cs == [] {
      assert "" + tail == tail;
    } else {
      FramesHead(cs, tail);
      FrameWorth(cs[0], Frames(cs[1..]) + tail);
      FramesWorth(cs[1..], tail);
    }
  }

  /** Frames followed by nothing more to decode give back exactly their chunks if and only if each of them is framable. */
  lemma FramesDecodeIff(cs: seq<Chunk>, tail: Bytes)
    requires Drain(tail) == ([], Clean)
    ensures Drain(Frames(cs) + tail) == (Normals(cs), Clean) <==> AllFramable(cs)
  {
    if AllFramable(cs) {
      FramesDrain(cs, tail);
      assert Normals(cs) + [] == Normals(cs);
    }
    if Drain(Frames(cs) + tail).0 == Normals(cs) { DecodedAreFramable(cs, tail); }
  }

  lemma DecodedAreFramable(cs: seq<Chunk>, tail: Bytes)
    requires Drain(tail).0 == [] && Drain(Frames(cs) + tail).0 == Normals(cs)
    ensures AllFramable(cs)
  {
    DrainHeadlines(Frames(cs) + tail);
    NormalHeadlines(cs);
    FramesWorth(cs, tail);
  }

  /** Decoding undoes encoding exactly for framable chunks. */
  lemma WrittenDecodesIff(cs: seq<Chunk>, tail: Bytes)
    ensures Drain(Written(cs, tail)) == (Normals(cs), Clean) <==> AllFramable(cs)
  {
    Associates(Frames(cs), DONE_FRAME, tail);
    SentinelDrains(tail);
    FramesDecodeIff(cs, DONE_FRAME + tail);
  }

  lemma Associates(a: Bytes, b: Bytes, c: Bytes)
    ensures a + b + c == a + (b + c)
  {
  }

  lemma SentinelDrains(tail: Bytes)
    ensures Drain(DONE_FRAME + tail) == ([], Clean)
  {
    DoneFrameEnds(tail);
  }

  // --- the relay ---

  function ErrorChunk(payload: Bytes): Chunk { Chunk("error", "", payload) }

  /** The chunks the relay sends for an upstream body, after the gates, an error last. */
  function Sent(s: Bytes, gate: Gate, index: nat): seq<Chunk>
    decreases |s|
  {
    match RecvFrom(s)
    case Over(Broken) => [ErrorChunk(BROKEN_PAYLOAD)]
    case Over(Clean) => []
    case Got(c, rest) =>
      match gate(index, c.data)
      case Abort(e) => [ErrorChunk(e)]
      case Drop => Sent(rest, gate, index + 1)
      case Pass => [c] + Sent(rest, gate, index + 1)
      case Replace(body) => [c.(data := body)] + Sent(rest, gate, index + 1)
  }

  lemma ErrorIsFrame(payload: Bytes)
    ensures Frames([ErrorChunk(payload)]) + "" == ErrorFrame(payload)
  {
    assert "event" + ": " + "error" + "\n" + "" + ("data" + ": " + payload + "\n") + "\n"
        == "event: error\ndata: " + payload + "\n\n";
    assert [ErrorChunk(payload)][1..] == [];
  }

  predicate AnyDone(cs: seq<Chunk>) { cs != [] && (IsDone(cs[0].data) || AnyDone(cs[1..])) }

  /** The upstream ends without an error and no gate aborts. */
  predicate EndsCleanly(s: Bytes, gate: Gate, index: nat)
    decreases |s|
  {
    match RecvFrom(s)
    case Over(terminal) => terminal == Clean
    case Got(c, rest) => !gate(index, c.data).Abort? && EndsCleanly(rest, gate, index + 1)
  }

  /** What follows the frames: one sentinel, unless an error or a relayed sentinel stands for it. */
  function Closing(clean: bool, done: bool): Bytes { if clean && !done then DONE_FRAME else "" }

  /** The relay writes the frames of what it sends, and then the sentinel or nothing. */
  lemma {:induction false} RelayedIsFrames(s: Bytes, gate: Gate, index: nat, doneRelayed: bool)
    ensures var cs := Sent(s, gate, index);
      Relayed(s, gate, index, doneRelayed) == Frames(cs) + Closing(EndsCleanly(s, gate, index), doneRelayed || AnyDone(cs))
    decreases |s|
  {
    match RecvFrom(s)
    case Over(Broken) => ErrorIsFrame(BROKEN_PAYLOAD);
    case Over(Clean) => assert "" + Closing(true, doneRelayed) == Closing(true, doneRelayed);
    case Got(c, rest) =>
      match gate(index, c.data)
      case Abort(e) => ErrorIsFrame(e);
      case Drop => RelayedIsFrames(rest, gate, index + 1, doneRelayed);
      case Pass => RelayedOnward(s, c, rest, gate, index, doneRelayed);
      case Replace(body) => RelayedOnward(s, c.(data := body), rest, gate, index, doneRelayed);
  }

  lemma {:induction false} RelayedOnward(s: Bytes, c: Chunk, rest: Bytes, gate: Gate, index: nat, doneRelayed: bool)
    requires |rest| < |s| && EndsCleanly(s, gate, index) == EndsCleanly(rest, gate, index + 1)
    requires Sent(s, gate, index) == [c] + Sent(rest, gate, index + 1)
    requires Relayed(s, gate, index, doneRelayed) == Frame(c) + Relayed(rest, gate, index + 1, doneRelayed || IsDone(c.data))
    ensures var cs := Sent(s, gate, index);
      Relayed(s, gate, index, doneRelayed) == Frames(cs) + Closing(EndsCleanly(s, gate, index), doneRelayed || AnyDone(cs))
    decreases |s|, 0
  {
    var cs := Sent(s, gate, index);
    RelayedIsFrames(rest, gate, index + 1, doneRelayed || IsDone(c.data));
    assert cs[1..] == Sent(rest, gate, index + 1);
    FramesHead(cs, Closing(EndsCleanly(s, gate, index), doneRelayed || AnyDone(cs)));
  }

  /** For every upstream body and every gate: a client decodes exactly what the relay sent if and only if each chunk sent
      is framable. */
  lemma RelayDecodesIff(s: Bytes, gate: Gate)
    ensures Drain(Relayed(s, gate, 0, false)) == (Normals(Sent(s, gate, 0)), Clean)
       <==> AllFramable(Sent(s, gate, 0))
  {
    RelayedIsFrames(s, gate, 0, false);
    SentinelDrains("");
    assert DONE_FRAME + "" == DONE_FRAME;
    FramesDecodeIff(Sent(s, gate, 0), Closing(EndsCleanly(s, gate, 0), AnyDone(Sent(s, gate, 0))));
  }

  /** Gates that let everything pass: what is sent is what came, and an error if the upstream broke off. */
  lemma {:induction false} PassSends(s: Bytes, gate: Gate, index: nat)
    requires forall i, data :: gate(i, data) == Pass
    ensures Sent(s, gate, index) == Drain(s).0 + if Drain(s).1 == Broken then [ErrorChunk(BROKEN_PAYLOAD)] else []
    ensures EndsCleanly(s, gate, index) <==> Drain(s).1 == Clean
    decreases |s|
  {
    var r := RecvFrom(s);
    if r.Got? { PassSends(r.rest, gate, index + 1); }
  }

  lemma BrokenIsFramable()
    ensures Framable(ErrorChunk(BROKEN_PAYLOAD))
  {
  }

  /** Without gates in its way, an upstream stream that ends cleanly reaches the client whole if and only if every chunk
      of it is framable. */
  lemma PassedDecodesIff(s: Bytes, gate: Gate)
    requires forall i, data :: gate(i, data) == Pass
    ensures var (cs, end) := Drain(s);
      Drain(Relayed(s, gate, 0, false))
        == (Normals(cs) + (if end == Broken then [ErrorChunk(BROKEN_PAYLOAD)] else []), Clean)
      <==> AllFramable(cs)
  {
    PassSends(s, gate, 0);
    RelayDecodesIff(s, gate);
    WithError(Drain(s).0, Drain(s).1 == Broken);
  }

  lemma WithError(cs: seq<Chunk>, broken: bool)
    ensures var err := if broken then [ErrorChunk(BROKEN_PAYLOAD)] else [];
      Normals(cs + err) == Normals(cs) + err && (AllFramable(cs + err) <==> AllFramable(cs))
  {
    var err := if broken then [ErrorChunk(BROKEN_PAYLOAD)] else [];
    BrokenIsFramable();
    FramesConcat(cs, err);
    assert Normals(err) == err;
  }

  lemma {:induction false} FramesConcat(a: seq<Chunk>, b: seq<Chunk>)
    ensures Normals(a + b) == Normals(a) + Normals(b)
    ensures AllFramable(a + b) <==> AllFramable(a) && AllFramable(b)
  {
    if a == [] {
      assert [] + b == b && [] + Normals(b) == Normals(b);
    } else {
      assert (a + b)[1..] == a[1..] + b;
      FramesConcat(a[1..], b);
      assert [Normal(a[0])] + (Normals(a[1..]) + Normals(b)) == Normals(a) + Normals(b);
    }
  }

  /** An ordinary event with two data lines is one chunk; relayed, its second line is lost. */
  lemma TwoDataLinesCut(x: Bytes, y: Bytes, rest: Bytes, gate: Gate)
    requires Fits("data", x) && Fits("data", y) && Colonless(y) && x != "" && !IsDone(x)
    requires !IsDone(x + "\n" + y)
    requires forall i, data :: gate(i, data) == Pass
    ensures var s := FieldText("data", x) + (FieldText("data", y) + ("\n" + rest));
      && RecvFrom(s) == Got(Chunk("", "", x + "\n" + y), rest)
      && Drain(Relayed(s, gate, 0, false)).0 != [] && Drain(Relayed(s, gate, 0, false)).0[0] == Chunk("", "", x)
  {
    var s := FieldText("data", x) + (FieldText("data", y) + ("\n" + rest));
    var p := Set(NOTHING, "data", x);
    ReadField("data", x, FieldText("data", y) + ("\n" + rest), NOTHING);
    ReadField("data", y, "\n" + rest, p);
    BlankLineCompletes(rest, Set(p, "data", y));
    assert JoinData([x, y]) == x + "\n" + y by { assert [x, y][1..] == [y]; }
    LineBreakCutsData(x, y, Relayed(rest, gate, 1, IsDone(x + "\n" + y)));
  }

  // --- relaying twice ---

  lemma {:induction false} NormalFrames(cs: seq<Chunk>)
    ensures Frames(Normals(cs)) == Frames(cs) && AnyDone(Normals(cs)) == AnyDone(cs)
  {
    if cs != [] {
      NormalFrames(cs[1..]);
      FrameNormal(cs[0]);
      assert Normals(cs)[1..] == Normals(cs[1..]);
    }
  }

  /** Gates that pass everything relay the frames of framable chunks as they are, and one sentinel. */
  lemma FramesRelayed(cs: seq<Chunk>, tail: Bytes, gate: Gate)
    requires AllFramable(cs) && Drain(tail) == ([], Clean) && forall i, data :: gate(i, data) == Pass
    ensures Relayed(Frames(cs) + tail, gate, 0, false) == Frames(cs) + Closing(true, AnyDone(cs))
  {
    var s := Frames(cs) + tail;
    FramesDecodeIff(cs, tail);
    PassSends(s, gate, 0);
    assert Sent(s, gate, 0) == Normals(cs);
    RelayedIsFrames(s, gate, 0, false);
    NormalFrames(cs);
  }

  /** What comes out of the relay, if framable, goes through a second one, whose gates pass everything, byte for byte:
      chunks, order and one sentinel; exactly unless the first ended in an error, after which the second puts a sentinel
      of its own. */
  lemma RelayTwiceIsOnceIff(s: Bytes, gate: Gate, pass: Gate)
    requires AllFramable(Sent(s, gate, 0)) && forall i, data :: pass(i, data) == Pass
    ensures var once := Relayed(s, gate, 0, false);
      Relayed(once, pass, 0, false) == once <==> EndsCleanly(s, gate, 0) || AnyDone(Sent(s, gate, 0))
  {
    var cs := Sent(s, gate, 0);
    var end := Closing(EndsCleanly(s, gate, 0), AnyDone(cs));
    RelayedIsFrames(s, gate, 0, false);
    SentinelDrains("");
    assert DONE_FRAME + "" == DONE_FRAME;
    FramesRelayed(cs, end, pass);
    assert |Frames(cs) + ""| < |Frames(cs) + DONE_FRAME|;
  }
}
