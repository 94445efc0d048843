/** What an upstream event says, however its lines are written, and what the relay makes of a stream, chunk by chunk
    (internal/executors/stream.go, internal/gateway/gateway.go). */
module SseEvents {
  import opened Sse
  import opened SseRoundTrip

  // --- one event ---

  /** What a line is: a comment, or a field. */
  datatype Field = Comment | Named(name: Bytes, value: Bytes)

  /** A field is its name, a colon and its value, with or without one space before the value; the name alone has an empty
      value. */
  ghost predicate Spells(line: Bytes, f: Field) {
    && line != ""
    && match f
       case Comment => line[0] == ':'
       case Named(name, value) =>
         && name != "" && (forall i | 0 <= i < |name| :: name[i] != ':')
         && (line == name + ":" + (" " + value)
             || (line == name + ":" + value && (value == "" || value[0] != ' '))
             || (line == name && value == ""))
  }

  /** The lines as they stand in the body, each with or without a carriage return before its line feed. */
  ghost predicate Stands(lines: seq<Bytes>, fs: seq<Field>) {
    && |lines| == |fs|
    && forall i | 0 <= i < |lines| :: Unbroken(lines[i]) && |lines[i]| < MAX_LINE && Spells(DropCR(lines[i]), fs[i])
  }

  function Text(lines: seq<Bytes>): Bytes {
    if lines == [] then "" else Text(lines[..|lines| - 1]) + (lines[|lines| - 1] + "\n")
  }

  /** The value of the last field of this name. */
  function Last(fs: seq<Field>, name: Bytes): Bytes {
    if fs == [] then ""
    else
      var f := fs[|fs| - 1];
      if f.Named? && f.name == name then f.value else Last(fs[..|fs| - 1], name)
  }

  /** The values of the data fields, in order. */
  function DataOf(fs: seq<Field>): seq<Bytes> {
    if fs == [] then []
    else
      var f := fs[|fs| - 1];
      DataOf(fs[..|fs| - 1]) + if f.Named? && f.name == "data" then [f.value] else []
  }

  /** One line feed between them. */
  function Joined(values: seq<Bytes>): Bytes {
    if values == [] then ""
    else if |values| == 1 then values[0]
    else Joined(values[..|values| - 1]) + "\n" + values[|values| - 1]
  }

  lemma {:induction false} JoinedIsJoinData(values: seq<Bytes>)
    ensures JoinData(values) == Joined(values)
  {
    if |values| > 1 {
      JoinLast(values[..|values| - 1], values[|values| - 1]);
      JoinedIsJoinData(values[..|values| - 1]);
      assert values == values[..|values| - 1] + [values[|values| - 1]];
    }
  }

  lemma {:induction false} JoinLast(values: seq<Bytes>, v: Bytes)
    requires values != []
    ensures JoinData(values + [v]) == JoinData(values) + "\n" + v
  {
    assert (values + [v])[1..] == values[1..] + [v];
    if |values| > 1 {
      JoinLast(values[1..], v);
      assert values[0] + "\n" + (JoinData(values[1..]) + "\n" + v) == (values[0] + "\n" + JoinData(values[1..])) + "\n" + v;
    }
  }

  /** What is known after these lines. */
  function PartialOf(fs: seq<Field>): Partial { Partial(Last(fs, "event"), Last(fs, "id"), DataOf(fs), fs != []) }

  lemma SplitsInto(line: Bytes, name: Bytes, value: Bytes)
    requires Spells(line, Named(name, value))
    ensures SplitField(line) == (name, value) && line[0] != ':'
  {
    if line == name && value == "" {
      assert IndexOf(line, ':') == |line|;
    } else {
      var after := if line == name + ":" + (" " + value) then " " + value else value;
      assert line == name + [':'] + after;
      IndexOfFirst(name, ':', after);
      assert line[..|name|] == name && line[|name| + 1..] == after;
      assert (" " + value)[1..] == value;
    }
  }

  lemma AbsorbsField(fs: seq<Field>, line: Bytes, f: Field)
    requires Spells(line, f)
    ensures Absorb(PartialOf(fs), line) == PartialOf(fs + [f])
  {
    assert (fs + [f])[..|fs|] == fs;
    if f.Named? { SplitsInto(line, f.name, f.value); }
  }

  /** Lines the scanner takes, none of them blank. */
  predicate Lines(lines: seq<Bytes>) {
    forall i | 0 <= i < |lines| :: Unbroken(lines[i]) && |lines[i]| < MAX_LINE && DropCR(lines[i]) != ""
  }

  function AbsorbAll(p: Partial, lines: seq<Bytes>): Partial
    requires Lines(lines)
  {
    if lines == [] then p else Absorb(AbsorbAll(p, lines[..|lines| - 1]), DropCR(lines[|lines| - 1]))
  }

  lemma ReadLine(line: Bytes, more: Bytes, p: Partial)
    requires Unbroken(line) && |line| < MAX_LINE && DropCR(line) != ""
    ensures ReadFrom(line + "\n" + more, p) == ReadFrom(more, Absorb(p, DropCR(line)))
  {
    ScanOneLine(line, more);
  }

  lemma TextLast(lines: seq<Bytes>, more: Bytes)
    requires lines != []
    ensures Text(lines) + more == Text(lines[..|lines| - 1]) + (lines[|lines| - 1] + "\n" + more)
  {
  }

  lemma {:induction false} ReadLines(lines: seq<Bytes>, p: Partial, more: Bytes)
    requires Lines(lines)
    ensures ReadFrom(Text(lines) + more, p) == ReadFrom(more, AbsorbAll(p, lines))
    decreases |lines|
  {
    if lines == [] {
      assert "" + more == more;
    } else {
      var init, last := lines[..|lines| - 1], lines[|lines| - 1];
      TextLast(lines, more);
      ReadLines(init, p, last + "\n" + more);
      ReadLine(last, more, AbsorbAll(p, init));
    }
  }

  lemma {:induction false} AbsorbsFields(lines: seq<Bytes>, fs: seq<Field>)
    requires Stands(lines, fs)
    ensures Lines(lines) && AbsorbAll(NOTHING, lines) == PartialOf(fs)
    decreases |lines|
  {
    if lines != [] {
      var n := |lines| - 1;
      AbsorbsFields(lines[..n], fs[..n]);
      AbsorbsField(fs[..n], DropCR(lines[n]), fs[n]);
      assert fs[..n] + [fs[n]] == fs;
    }
  }

  /** What the lines of an event say, up to the blank line that ends it or the end of the body: the last event name and id,
      and all data joined by line feeds. Comments, other fields and the way a field is written do not matter. */
  lemma EventSays(lines: seq<Bytes>, fs: seq<Field>, blank: Bytes, tail: Bytes)
    requires Stands(lines, fs) && fs != [] && blank in {"", "\r"}
    ensures ReadFrom(Text(lines) + (blank + "\n" + tail), NOTHING)
         == Event(Last(fs, "event"), Last(fs, "id"), Joined(DataOf(fs)), tail)
    ensures ReadFrom(Text(lines), NOTHING) == Event(Last(fs, "event"), Last(fs, "id"), Joined(DataOf(fs)), "")
  {
    AbsorbsFields(lines, fs);
    ReadLines(lines, NOTHING, blank + "\n" + tail);
    ScanOneLine(blank, tail);
    ReadLines(lines, NOTHING, "");
    assert Text(lines) + "" == Text(lines);
    JoinedIsJoinData(DataOf(fs));
  }

  // --- the sentinel ---

  predicate AllBlank(s: Bytes) { forall i | 0 <= i < |s| :: Blank(s[i]) }

  lemma {:induction false} TrimLeftParts(s: Bytes) returns (pre: Bytes)
    ensures AllBlank(pre) && s == pre + TrimLeft(s) && (TrimLeft(s) != "" ==> !Blank(TrimLeft(s)[0]))
  {
    if s != "" && Blank(s[0]) {
      var p := TrimLeftParts(s[1..]);
      pre := [s[0]] + p;
      assert s == [s[0]] + s[1..];
    } else {
      pre := "";
    }
  }

  lemma {:induction false} TrimRightParts(s: Bytes) returns (post: Bytes)
    ensures AllBlank(post) && s == TrimRight(s) + post
  {
    if s != "" && Blank(s[|s| - 1]) {
      var p := TrimRightParts(s[..|s| - 1]);
      post := p + [s[|s| - 1]];
      assert s == s[..|s| - 1] + [s[|s| - 1]];
    } else {
      post := "";
    }
  }

  lemma {:induction false} TrimLeftOf(pre: Bytes, s: Bytes)
    requires AllBlank(pre) && s != "" && !Blank(s[0])
    ensures TrimLeft(pre + s) == s
  {
    if pre == "" {
      assert pre + s == s;
    } else {
      assert (pre + s)[1..] == pre[1..] + s;
      TrimLeftOf(pre[1..], s);
    }
  }

  lemma {:induction false} TrimRightOf(s: Bytes, post: Bytes)
    requires AllBlank(post) && s != "" && !Blank(s[|s| - 1])
    ensures TrimRight(s + post) == s
  {
    if post == "" {
      assert s + post == s;
    } else {
      assert (s + post)[..|s + post| - 1] == s + post[..|post| - 1];
      TrimRightOf(s, post[..|post| - 1]);
    }
  }

  /** The sentinel is "[DONE]" with any blanks around it. */
  lemma IsDoneIff(data: Bytes)
    ensures IsDone(data) <==> exists pre, post :: AllBlank(pre) && AllBlank(post) && data == pre + "[DONE]" + post
  {
    if IsDone(data) {
      var pre := TrimLeftParts(data);
      var post := TrimRightParts(TrimLeft(data));
      assert data == pre + "[DONE]" + post;
    }
    if pre, post :| AllBlank(pre) && AllBlank(post) && data == pre + "[DONE]" + post {
      assert data == pre + ("[DONE]" + post);
      TrimLeftOf(pre, "[DONE]" + post);
      TrimRightOf("[DONE]", post);
    }
  }

  /** The chunk such an event arrives as; one without name, id and data is skipped, and a nameless sentinel ends the
      stream. */
  lemma EventArrives(lines: seq<Bytes>, fs: seq<Field>, blank: Bytes, tail: Bytes)
    requires Stands(lines, fs) && fs != [] && blank in {"", "\r"}
    ensures var event, id, data := Last(fs, "event"), Last(fs, "id"), Joined(DataOf(fs));
      RecvFrom(Text(lines) + (blank + "\n" + tail))
      == if event == "" && id == "" && data == "" then RecvFrom(tail)
         else if event == "" && exists pre, post :: AllBlank(pre) && AllBlank(post) && data == pre + "[DONE]" + post then
           Over(Clean)
         else Got(Chunk(event, id, data), tail)
  {
    EventSays(lines, fs, blank, tail);
    IsDoneIff(Joined(DataOf(fs)));
  }

  // --- frames and the relay ---

  /** A frame, byte for byte. */
  lemma FrameIsLaidOut(c: Chunk)
    ensures Frame(c) == (if c.event == "" || c.event == "message" then "" else "event: " + c.event + "\n")
                        + (if c.id == "" then "" else "id: " + c.id + "\n") + "data: " + c.data + "\n\n"
  {
    var a := if c.event == "" || c.event == "message" then "" else "event: " + c.event + "\n";
    var b := if c.id == "" then "" else "id: " + c.id + "\n";
    assert "event" + ": " == "event: " && "id" + ": " == "id: " && "data" + ": " == "data: ";
    assert a + b + ("data: " + c.data + "\n") + "\n" == a + b + "data: " + c.data + "\n\n";
  }

  /** What becomes of the i-th chunk of a stream: it is sent as it is or with another body, or dropped. */
  ghost predicate Forwards(c: Chunk, verdict: Decision, out: seq<Chunk>) {
    match verdict
    case Pass => out == [c]
    case Replace(body) => out == [Chunk(c.event, c.id, body)]
    case Drop => out == []
    case Abort(_) => false
  }

  function Flat(outs: seq<seq<Chunk>>): seq<Chunk> { if outs == [] then [] else outs[0] + Flat(outs[1..]) }

  /** The gates judge the chunks in turn, each by its number and its data, until one aborts; then, or when the stream
      breaks off, an error comes last. */
  ghost predicate Judges(cs: seq<Chunk>, end: Terminal, gate: Gate, index: nat, outs: seq<seq<Chunk>>, sent: seq<Chunk>) {
    && |outs| <= |cs|
    && (forall i | 0 <= i < |outs| :: Forwards(cs[i], gate(index + i, cs[i].data), outs[i]))
    && if |outs| < |cs| then
         var verdict := gate(index + |outs|, cs[|outs|].data);
         verdict.Abort? && sent == Flat(outs) + [Chunk("error", "", verdict.error)]
       else sent == Flat(outs) + if end.Broken? then [Chunk("error", "", "upstream")] else []
  }

  lemma JudgesHead(c: Chunk, cs: seq<Chunk>, end: Terminal, gate: Gate, index: nat, out: seq<Chunk>,
                   outs: seq<seq<Chunk>>, sent: seq<Chunk>)
    requires Forwards(c, gate(index, c.data), out) && Judges(cs, end, gate, index + 1, outs, sent)
    ensures Judges([c] + cs, end, gate, index, [out] + outs, out + sent)
  {
    var all, made := [c] + cs, [out] + outs;
    forall i | 0 <= i < |made| ensures Forwards(all[i], gate(index + i, all[i].data), made[i]) {
      if i > 0 { assert all[i] == cs[i - 1] && made[i] == outs[i - 1] && index + i == index + 1 + (i - 1); }
    }
    assert made[1..] == outs && Flat(made) == out + Flat(outs);
  }

  /** What the relay sends, chunk by chunk of the upstream stream. */
  lemma {:induction false} SentChunkByChunk(s: Bytes, gate: Gate, index: nat) returns (outs: seq<seq<Chunk>>)
    ensures Judges(Drain(s).0, Drain(s).1, gate, index, outs, Sent(s, gate, index))
    decreases |s|
  {
    var r := RecvFrom(s);
    outs := [];
    if r.Got? {
      var c, verdict := r.chunk, gate(index, r.chunk.data);
      if !verdict.Abort? {
        var rest := SentChunkByChunk(r.rest, gate, index + 1);
        var out := match verdict case Pass => [c] case Replace(body) => [Chunk(c.event, c.id, body)] case _ => [];
        outs := [out] + rest;
        JudgesHead(c, Drain(r.rest).0, Drain(r.rest).1, gate, index, out, rest, Sent(r.rest, gate, index + 1));
        SentHead(s, gate, index, out);
      }
    }
  }

  lemma SentHead(s: Bytes, gate: Gate, index: nat, out: seq<Chunk>)
    requires var r := RecvFrom(s); r.Got? && Forwards(r.chunk, gate(index, r.chunk.data), out)
    ensures Sent(s, gate, index) == out + Sent(RecvFrom(s).rest, gate, index + 1)
  {
  }
}
