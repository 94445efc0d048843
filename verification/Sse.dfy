/** Server-sent events both ways: the decoder of upstream streams (internal/executors/stream.go), the frames the gateway
    writes and its relay loop (internal/gateway/gateway.go). Bytes are characters; cancellation, idle timeouts and read
    errors are not part of this module. */
module Sse {

  datatype Option<T> = None | Some(value: T)

  type Bytes = string

  datatype Chunk = Chunk(event: Bytes, id: Bytes, data: Bytes)

  const MAX_LINE := 0x10_0000
  const DONE := "[DONE]"

  // --- lines ---

  function IndexOf(s: Bytes, c: char): (i: nat)
    ensures i <= |s| && (i < |s| ==> s[i] == c)
    ensures forall j | 0 <= j < i :: s[j] != c
  {
    if s == "" then 0 else if s[0] == c then 0 else IndexOf(s[1..], c) + 1
  }

  predicate EndsWithCR(s: Bytes) { s != "" && s[|s| - 1] == '\r' }

  function DropCR(s: Bytes): Bytes { if EndsWithCR(s) then s[..|s| - 1] else s }

  datatype Scan = Line(text: Bytes, rest: Bytes) | End | TooLong

  /** The next line, without its terminator. */
  function ScanLine(s: Bytes): (r: Scan)
    ensures r.Line? ==> |r.rest| < |s|
  {
    if s == "" then End
    else
      var i := IndexOf(s, '\n');
      if i >= MAX_LINE then TooLong
      else if i == |s| then Line(DropCR(s), "")
      else Line(DropCR(s[..i]), s[i + 1..])
  }

  // --- one event ---

  datatype Partial = Partial(event: Bytes, id: Bytes, data: seq<Bytes>, sawField: bool)

  const NOTHING := Partial("", "", [], false)

  /** Field name and value, one leading space of the value trimmed. */
  function SplitField(line: Bytes): (Bytes, Bytes) {
    var i := IndexOf(line, ':');
    if i == |line| then (line, "")
    else
      var value := line[i + 1..];
      (line[..i], if value != "" && value[0] == ' ' then value[1..] else value)
  }

  function Absorb(p: Partial, line: Bytes): Partial
    requires line != ""
  {
    var q := p.(sawField := true);
    if line[0] == ':' then q
    else
      var (field, value) := SplitField(line);
      if field == "event" then q.(event := value)
      else if field == "id" then q.(id := value)
      else if field == "data" then q.(data := p.data + [value])
      else q
  }

  function JoinData(lines: seq<Bytes>): Bytes {
    if lines == [] then "" else if |lines| == 1 then lines[0] else lines[0] + "\n" + JoinData(lines[1..])
  }

  datatype Read = Event(event: Bytes, id: Bytes, data: Bytes, rest: Bytes) | Eof | Failed

  function Completed(p: Partial, rest: Bytes): Read {
    if p.sawField then Event(p.event, p.id, JoinData(p.data), rest) else Event("", "", "", rest)
  }

  function ReadFrom(s: Bytes, p: Partial): (r: Read)
    ensures r.Event? ==> |r.rest| <= |s| && (s != "" ==> |r.rest| < |s|)
    decreases |s|
  {
    match ScanLine(s)
    case TooLong => Failed
    case End => if p.sawField then Completed(p, "") else Eof
    case Line(text, rest) => if text == "" then Completed(p, rest) else ReadFrom(rest, Absorb(p, text))
  }

  // --- the stream ---

  predicate Blank(c: char) { c in {' ', '\t', '\n', '\r', '\U{000B}', '\U{000C}'} }

  function TrimLeft(s: Bytes): Bytes { if s != "" && Blank(s[0]) then TrimLeft(s[1..]) else s }

  function TrimRight(s: Bytes): Bytes { if s != "" && Blank(s[|s| - 1]) then TrimRight(s[..|s| - 1]) else s }

  predicate IsDone(data: Bytes) { TrimRight(TrimLeft(data)) == DONE }

  /** How a stream ends: cleanly or with an error. */
  datatype Terminal = Clean | Broken

  datatype Received = Got(chunk: Chunk, rest: Bytes) | Over(terminal: Terminal)

  function RecvFrom(s: Bytes): (r: Received)
    ensures r.Got? ==> |r.rest| < |s|
    decreases |s|
  {
    match ReadFrom(s, NOTHING)
    case Failed => Over(Broken)
    case Eof => Over(Clean)
    case Event(event, id, data, rest) =>
      if data == "" && event == "" && id == "" then RecvFrom(rest)
      else if event == "" && IsDone(data) then Over(Clean)
      else Got(Chunk(event, id, data), rest)
  }

  class Stream {
    var rest: Bytes
    var terminal: Option<Terminal>

    constructor (body: Bytes)
      ensures rest == body && terminal == None
    {
      rest, terminal := body, None;
    }

    method ReadEvent() returns (r: Read)
      modifies this`rest
      ensures r == ReadFrom(old(rest), NOTHING)
      ensures r.Event? ==> rest == r.rest
    {
      var p := NOTHING;
      ghost var was := rest;
      while true
        invariant ReadFrom(rest, p) == ReadFrom(was, NOTHING)
        decreases |rest|
      {
        var scan := ScanLine(rest);
        if scan.TooLong? {
          return Failed;
        }
        if scan.End? {
          rest := "";
          if p.sawField {
            return Event(p.event, p.id, JoinData(p.data), "");
          }
          return Eof;
        }
        rest := scan.rest;
        if scan.text == "" {
          if !p.sawField {
            return Event("", "", "", rest);
          }
          return Event(p.event, p.id, JoinData(p.data), rest);
        }
        p := Absorb(p, scan.text);
      }
    }

    /** The next chunk, or the terminal outcome, which is then final. */
    method Recv() returns (r: Received)
      modifies this
      ensures old(terminal).Some? ==> r == Over(old(terminal).value) && terminal == old(terminal) && rest == old(rest)
      ensures old(terminal).None? ==> r == RecvFrom(old(rest))
      ensures old(terminal).None? && r.Got? ==> rest == r.rest && terminal == None
      ensures r.Over? ==> terminal == Some(r.terminal)
    {
      if terminal.Some? {
        return Over(terminal.value);
      }
      ghost var was := rest;
      while true
        invariant terminal == None && RecvFrom(rest) == RecvFrom(was)
        decreases |rest|
      {
        ghost var before := rest;
        var e := ReadEvent();
        match e
        case Failed =>
          terminal := Some(Broken);
          return Over(Broken);
        case Eof =>
          terminal := Some(Clean);
          return Over(Clean);
        case Event(event, id, data, _) =>
          if !(data == "" && event == "" && id == "") {
            if event == "" && IsDone(data) {
              terminal := Some(Clean);
              return Over(Clean);
            }
            return Got(Chunk(event, id, data), rest);
          }
      }
    }
  }

  // --- frames ---

  function FieldText(name: Bytes, value: Bytes): Bytes { name + ": " + value + "\n" }

  function Optional(name: Bytes, value: Bytes): Bytes { if value != "" then FieldText(name, value) else "" }

  /** An event named "message" is the default one and is not written. */
  function Frame(c: Chunk): Bytes {
    Optional("event", if c.event == "message" then "" else c.event) + Optional("id", c.id) + FieldText("data", c.data) + "\n"
  }

  const DONE_FRAME := FieldText("data", DONE) + "\n"

  predicate Unbroken(s: Bytes) { forall i | 0 <= i < |s| :: s[i] != '\n' }

  /** The field line `name: value` reads back as it is: no line feed, no trailing carriage return, no longer than the
      scanner allows. */
  predicate Fits(name: Bytes, value: Bytes) { Unbroken(value) && !EndsWithCR(value) && |name| + 2 + |value| < MAX_LINE }

  function Normal(c: Chunk): Chunk { if c.event == "message" then c.(event := "") else c }

  /** A chunk whose fields fit their lines, that is not wholly empty and is not the sentinel. */
  predicate Framable(c: Chunk) {
    var n := Normal(c);
    && Fits("event", n.event) && Fits("id", n.id) && Fits("data", n.data)
    && !(n.event == "" && n.id == "" && n.data == "")
    && !(n.event == "" && IsDone(n.data))
  }

  function Frames(cs: seq<Chunk>): Bytes { if cs == [] then "" else Frame(cs[0]) + Frames(cs[1..]) }

  lemma {:induction false} IndexOfFirst(line: Bytes, c: char, tail: Bytes)
    requires forall i | 0 <= i < |line| :: line[i] != c
    ensures IndexOf(line + [c] + tail, c) == |line|
  {
    if line == "" {
      assert line + [c] + tail == [c] + tail;
    } else {
      assert (line + [c] + tail)[1..] == line[1..] + [c] + tail;
      IndexOfFirst(line[1..], c, tail);
    }
  }

  lemma ScanOneLine(line: Bytes, tail: Bytes)
    requires Unbroken(line)
    ensures ScanLine(line + "\n" + tail) == if |line| < MAX_LINE then Line(DropCR(line), tail) else TooLong
  {
    IndexOfFirst(line, '\n', tail);
    var s := line + "\n" + tail;
    assert s[..|line|] == line && s[|line| + 1..] == tail;
  }

  /** A written field line reads back as the field. */
  lemma FieldLine(name: Bytes, value: Bytes)
    requires name in {"event", "id", "data"}
    ensures SplitField(name + ": " + value) == (name, value)
  {
    IndexOfFirst(name, ':', " " + value);
    var line := name + ": " + value;
    assert line == name + ":" + (" " + value);
    assert line[..|name|] == name && line[|name| + 1..] == " " + value;
    assert (" " + value)[1..] == value;
  }

  function Set(p: Partial, name: Bytes, value: Bytes): Partial {
    var q := p.(sawField := true);
    if name == "event" then q.(event := value) else if name == "id" then q.(id := value) else q.(data := p.data + [value])
  }

  /** One field line in front of the rest of a frame. */
  lemma ReadField(name: Bytes, value: Bytes, tail: Bytes, p: Partial)
    requires name in {"event", "id", "data"} && Unbroken(value)
    ensures ReadFrom(FieldText(name, value) + tail, p)
         == if |name| + 2 + |value| < MAX_LINE then ReadFrom(tail, Set(p, name, DropCR(value))) else Failed
  {
    var line := name + ": " + value;
    assert DropCR(line) == name + ": " + DropCR(value) by {
      if value != "" { assert line[|line| - 1] == value[|value| - 1]; }
    }
    ScanOneLine(line, tail);
    FieldLine(name, DropCR(value));
  }

  lemma ReadOptional(name: Bytes, value: Bytes, tail: Bytes, p: Partial)
    requires name in {"event", "id", "data"} && Unbroken(value)
    ensures ReadFrom(Optional(name, value) + tail, p)
         == if value == "" then ReadFrom(tail, p)
            else if |name| + 2 + |value| < MAX_LINE then ReadFrom(tail, Set(p, name, DropCR(value))) else Failed
  {
    if value != "" {
      ReadField(name, value, tail, p);
    } else {
      assert "" + tail == tail;
    }
  }

  lemma Regroup(a: Bytes, b: Bytes, c: Bytes, d: Bytes, tail: Bytes)
    ensures a + b + c + d + tail == a + (b + (c + (d + tail)))
  {
  }

  predicate Short(c: Chunk) {
    7 + |Normal(c).event| < MAX_LINE && 4 + |c.id| < MAX_LINE
  }

  /** What is read of a frame before its data. */
  function Headed(c: Chunk): Partial {
    var p := if Normal(c).event != "" then Set(NOTHING, "event", DropCR(Normal(c).event)) else NOTHING;
    if c.id != "" then Set(p, "id", DropCR(c.id)) else p
  }

  lemma ReadHead(c: Chunk, tail: Bytes)
    requires Unbroken(c.event) && Unbroken(c.id)
    ensures ReadFrom(Frame(c) + tail, NOTHING)
         == if Short(c) then ReadFrom(FieldText("data", c.data) + ("\n" + tail), Headed(c)) else Failed
  {
    var event, more := Normal(c).event, FieldText("data", c.data) + ("\n" + tail);
    Regroup(Optional("event", event), Optional("id", c.id), FieldText("data", c.data), "\n", tail);
    ReadOptional("event", event, Optional("id", c.id) + more, NOTHING);
    ReadOptional("id", c.id, more, if event != "" then Set(NOTHING, "event", DropCR(event)) else NOTHING);
  }

  /** Reading a frame without line feeds in its fields gives back its chunk, less trailing carriage returns. */
  lemma ReadFrame(c: Chunk, tail: Bytes)
    requires Unbroken(c.event) && Unbroken(c.id) && Unbroken(c.data)
    ensures ReadFrom(Frame(c) + tail, NOTHING)
         == if Short(c) && 6 + |c.data| < MAX_LINE
            then Event(DropCR(Normal(c).event), DropCR(c.id), DropCR(c.data), tail) else Failed
  {
    ReadHead(c, tail);
    ReadField("data", c.data, "\n" + tail, Headed(c));
    BlankLineCompletes(tail, Set(Headed(c), "data", DropCR(c.data)));
  }

  lemma BlankLineCompletes(tail: Bytes, p: Partial)
    ensures ReadFrom("\n" + tail, p) == Completed(p, tail)
  {
    ScanOneLine("", tail);
    assert "" + "\n" + tail == "\n" + tail;
  }

  lemma DoneIsDone()
    ensures IsDone(DONE)
  {
  }

  lemma DoneFrameEnds(tail: Bytes)
    ensures RecvFrom(DONE_FRAME + tail) == Over(Clean)
  {
    var c := Chunk("", "", DONE);
    assert Frame(c) == DONE_FRAME by { assert "" + "" + FieldText("data", DONE) == FieldText("data", DONE); }
    ReadFrame(c, tail);
    DoneIsDone();
  }

  // --- decoding undoes encoding ---

  /** Outcome of the k-th Recv (counting from 0) on a stream with body s. */
  function NthRecv(s: Bytes, k: nat): Received
    decreases k
  {
    var r := RecvFrom(s);
    if r.Over? || k == 0 then r else NthRecv(r.rest, k - 1)
  }

  lemma FirstFrame(a: Bytes, b: Bytes, c: Bytes, tail: Bytes)
    ensures (a + b) + c + tail == a + (b + c + tail)
    ensures (a + b) + c == a + (b + c)
  {
  }

  lemma RecvFrame(c: Chunk, tail: Bytes)
    requires Framable(c)
    ensures RecvFrom(Frame(c) + tail) == Got(Normal(c), tail)
  {
    ReadFrame(c, tail);
  }

  /** What a gateway writes for these chunks, and whatever follows it. */
  function Written(cs: seq<Chunk>, tail: Bytes): Bytes { Frames(cs) + DONE_FRAME + tail }

  lemma RecvWritten(cs: seq<Chunk>, tail: Bytes)
    requires cs != [] && Framable(cs[0])
    ensures RecvFrom(Written(cs, tail)) == Got(Normal(cs[0]), Written(cs[1..], tail))
  {
    FirstFrame(Frame(cs[0]), Frames(cs[1..]), DONE_FRAME, tail);
    RecvFrame(cs[0], Frames(cs[1..]) + DONE_FRAME + tail);
  }

  lemma RecvNothing(tail: Bytes)
    ensures RecvFrom(Written([], tail)) == Over(Clean)
  {
    assert "" + DONE_FRAME == DONE_FRAME;
    DoneFrameEnds(tail);
  }

  /** Recv returns exactly these chunks, one by one, and then a clean end. */
  ghost predicate Yields(s: Bytes, cs: seq<Chunk>)
    decreases |cs|
  {
    var r := RecvFrom(s);
    if cs == [] then r == Over(Clean) else r.Got? && r.chunk == Normal(cs[0]) && Yields(r.rest, cs[1..])
  }

  lemma {:induction false} WrittenYields(cs: seq<Chunk>, tail: Bytes)
    requires forall i | 0 <= i < |cs| :: Framable(cs[i])
    ensures Yields(Written(cs, tail), cs)
  {
    if cs == [] {
      RecvNothing(tail);
    } else {
      RecvWritten(cs, tail);
      WrittenYields(cs[1..], tail);
    }
  }

  lemma {:induction false} NthOfYields(s: Bytes, cs: seq<Chunk>, k: nat)
    requires Yields(s, cs)
    ensures var r := NthRecv(s, k); if k < |cs| then r.Got? && r.chunk == Normal(cs[k]) else r == Over(Clean)
    decreases |cs|
  {
    if cs != [] && k > 0 {
      NthOfYields(RecvFrom(s).rest, cs[1..], k - 1);
    }
  }

  /** The k-th Recv over the frames of a list of chunks, the sentinel, and whatever follows it, returns the k-th chunk;
      every Recv after the last chunk returns a clean end. */
  lemma DecodeUndoesEncode(cs: seq<Chunk>, tail: Bytes, k: nat)
    requires forall i | 0 <= i < |cs| :: Framable(cs[i])
    ensures var r := NthRecv(Written(cs, tail), k); if k < |cs| then r.Got? && r.chunk == Normal(cs[k]) else r == Over(Clean)
  {
    WrittenYields(cs, tail);
    NthOfYields(Written(cs, tail), cs, k);
  }

  predicate Colonless(y: Bytes) {
    y != "" && y !in {"event", "id", "data"} && forall i | 0 <= i < |y| :: y[i] != ':'
  }

  lemma {:induction false} ColonlessLine(y: Bytes, p: Partial)
    requires Colonless(y) && p.sawField
    ensures Absorb(p, y) == p
  {
    assert IndexOf(y, ':') == |y|;
  }

  lemma SplitData(x: Bytes, y: Bytes, tail: Bytes)
    ensures Frame(Chunk("", "", x + "\n" + y)) + tail == FieldText("data", x) + (y + "\n" + ("\n" + tail))
  {
    var d := "data: ";
    assert "" + "" + (d + (x + "\n" + y) + "\n") + "\n" + tail == (d + x + "\n") + (y + "\n" + ("\n" + tail));
  }

  /** A line break inside the data is not escaped: the decoder keeps only what precedes it. */
  lemma LineBreakCutsData(x: Bytes, y: Bytes, tail: Bytes)
    requires Fits("data", x) && Colonless(y) && Unbroken(y) && !EndsWithCR(y) && |y| < MAX_LINE
    requires x != "" && !IsDone(x)
    ensures RecvFrom(Frame(Chunk("", "", x + "\n" + y)) + tail) == Got(Chunk("", "", x), tail)
  {
    var end := "\n" + tail;
    SplitData(x, y, tail);
    ReadField("data", x, y + "\n" + end, NOTHING);
    var p := Set(NOTHING, "data", x);
    ScanOneLine(y, end);
    ColonlessLine(y, p);
    BlankLineCompletes(tail, p);
  }

  // --- the relay ---

  datatype Decision = Pass | Drop | Replace(body: Bytes) | Abort(error: Bytes)

  /** The response gates' verdict on the i-th chunk. */
  type Gate = (nat, Bytes) -> Decision

  function ErrorFrame(payload: Bytes): Bytes { "event: error\ndata: " + payload + "\n\n" }

  const BROKEN_PAYLOAD := "upstream"

  /** What the gateway writes for an upstream body. */
  function Relayed(s: Bytes, gate: Gate, index: nat, doneRelayed: bool): Bytes
    decreases |s|
  {
    match RecvFrom(s)
    case Over(Broken) => ErrorFrame(BROKEN_PAYLOAD)
    case Over(Clean) => if doneRelayed then "" else DONE_FRAME
    case Got(c, rest) =>
      match gate(index, c.data)
      case Abort(e) => ErrorFrame(e)
      case Drop => Relayed(rest, gate, index + 1, doneRelayed)
      case Pass => Frame(c) + Relayed(rest, gate, index + 1, doneRelayed || IsDone(c.data))
      case Replace(body) => Frame(c.(data := body)) + Relayed(rest, gate, index + 1, doneRelayed || IsDone(body))
  }

  method WriteChunk(c: Chunk) returns (b: Bytes)
    ensures b == Frame(c)
  {
    b := "";
    if c.event != "" && c.event != "message" {
      b := b + FieldText("event", c.event);
    }
    if c.id != "" {
      b := b + FieldText("id", c.id);
    }
    b := b + FieldText("data", c.data) + "\n";
  }

  lemma AppendFrame(out: Bytes, frame: Bytes, rest: Bytes)
    ensures out + (frame + rest) == (out + frame) + rest
  {
  }

  method Relay(stream: Stream, gate: Gate) returns (out: Bytes)
    requires stream.terminal == None
    modifies stream
    ensures out == Relayed(old(stream.rest), gate, 0, false)
  {
    out := "";
    var index, doneRelayed := 0, false;
    ghost var all := Relayed(stream.rest, gate, 0, false);
    while true
      invariant stream.terminal == None
      invariant out + Relayed(stream.rest, gate, index, doneRelayed) == all
      decreases |stream.rest|
    {
      var r := stream.Recv();
      if r.Over? {
        if r.terminal.Broken? {
          return out + ErrorFrame(BROKEN_PAYLOAD);
        }
        return if doneRelayed then out else out + DONE_FRAME;
      }
      var c := r.chunk;
      var decision := gate(index, c.data);
      index := index + 1;
      if decision.Abort? {
        return out + ErrorFrame(decision.error);
      }
      if decision.Drop? {
        continue;
      }
      if decision.Replace? {
        c := c.(data := decision.body);
      }
      doneRelayed := doneRelayed || IsDone(c.data);
      var frame := WriteChunk(c);
      AppendFrame(out, frame, Relayed(stream.rest, gate, index, doneRelayed));
      out := out + frame;
    }
  }

  lemma FrameNormal(c: Chunk)
    ensures Frame(Normal(c)) == Frame(c)
  {
  }
}
