/**
 * The chat hook's stream consumer: it cuts the received text into blank-line separated
 * records, reads each record's `event:`/`data:` lines, and folds the events into the
 * conversation's message list.
 *
 * `JSON.parse` is a parameter `parse` (`None` where it throws); message ids, which the hook
 * takes from `Date.now()`, are parameters as well.
 */
module ChatConsumer {
  import opened Wrappers
  import opened JsString
  import opened Sequences

  datatype Role = User | Assistant
  datatype Kind = ThinkingMessage | ResponseMessage
  datatype ChatMessage = ChatMessage(id: int, role: Role, content: string, kind: Kind)
  datatype LoadingState = Idle | SearchingVerses | BuildingContext | Thinking | Generating

  /** The two fields of a parsed `data:` payload the hook reads. */
  datatype Payload = Payload(chunk: Option<string>, message: Option<string>)

  datatype SseEvent = SseEvent(name: string, data: Payload)

  // ---------------------------------------------------------------- parseSSEChunk

  datatype LineState = LineState(events: seq<SseEvent>, current: string)

  /** One line of a record (lines 36-48). */
  function ReadLine(st: LineState, line: string, parse: string -> Option<Payload>): LineState {
    if StartsWith(line, "event: ") then LineState(st.events, line[7..])
    else if StartsWith(line, "data: ") && st.current != "" then
      match parse(line[6..])
      case Some(d) => LineState(st.events + [SseEvent(st.current, d)], "")
      case None => st
    else st
  }

  function ReadLines(lines: seq<string>, parse: string -> Option<Payload>): LineState {
    if lines == [] then LineState([], "")
    else ReadLine(ReadLines(lines[..|lines| - 1], parse), lines[|lines| - 1], parse)
  }

  /** The events of one record. */
  function SseEvents(chunk: string, parse: string -> Option<Payload>): seq<SseEvent> {
    ReadLines(Split(chunk, "\n"), parse).events
  }

  /** `parseSSEChunk` (lines 29-51). */
  method ParseSseChunk(chunk: string, parse: string -> Option<Payload>) returns (events: seq<SseEvent>)
    ensures events == SseEvents(chunk, parse)
  {
    var lines := Split(chunk, "\n");
    var currentEvent := "";
    events := [];
    for i := 0 to |lines|
      invariant ReadLines(lines[..i], parse) == LineState(events, currentEvent)
    {
      assert lines[..i + 1][..i] == lines[..i];
      var line := lines[i];
      if StartsWith(line, "event: ") {
        currentEvent := line[7..];
      } else if StartsWith(line, "data: ") && currentEvent != "" {
        var parsed := parse(line[6..]);
        if parsed.Some? {
          events := events + [SseEvent(currentEvent, parsed.value)];
          currentEvent := "";
        }
      }
    }
    assert lines[..|lines|] == lines;
  }

  lemma SplitLine(a: string, b: string)
    requires OneLine(a)
    ensures Split(a + "\n" + b, "\n") == [a] + Split(b, "\n")
  {
    var s := a + "\n" + b;
    assert OccursAt(s, "\n", |a|);
    forall j | 0 <= j < |a| ensures !OccursAt(s, "\n", j) {
      assert s[j] == a[j];
    }
    FirstOccurrence(s, "\n", |a|);
    assert s[..|a|] == a;
    assert s[|a| + 1..] == b;
  }

  lemma SplitOneLine(a: string)
    requires OneLine(a)
    ensures Split(a, "\n") == [a]
  {
    forall j | 0 <= j < |a| ensures !OccursAt(a, "\n", j) {
      assert a[j..j + 1] == [a[j]];
    }
  }

  lemma StartsWithPrefix(p: string, rest: string)
    ensures StartsWith(p + rest, p) && (p + rest)[|p|..] == rest
  {
    assert (p + rest)[..|p|] == p;
  }

  /** A `data: ` line is never an `event: ` line. */
  lemma DataLine(rest: string)
    ensures !StartsWith("data: " + rest, "event: ")
    ensures StartsWith("data: " + rest, "data: ") && ("data: " + rest)[6..] == rest
  {
    StartsWithPrefix("data: ", rest);
    var s := "data: " + rest;
    if |s| >= 7 {
      assert s[..7][0] == s[0] == 'd';
    }
  }

  lemma EventLine(name: string, st: LineState, parse: string -> Option<Payload>)
    ensures ReadLine(st, "event: " + name, parse) == LineState(st.events, name)
  {
    StartsWithPrefix("event: ", name);
  }

  lemma DataLineRead(json: string, st: LineState, parse: string -> Option<Payload>)
    ensures ReadLine(st, "data: " + json, parse)
         == if st.current != "" && parse(json).Some? then LineState(st.events + [SseEvent(st.current, parse(json).value)], "")
            else st
  {
    DataLine(json);
  }

  /** A record `event: E` / `data: J` whose J parses yields exactly one event, and nothing is left pending. */
  lemma OneRecordOneEvent(name: string, json: string, d: Payload, parse: string -> Option<Payload>)
    requires name != "" && OneLine(name) && OneLine(json) && parse(json) == Some(d)
    ensures ReadLines(Split("event: " + name + "\ndata: " + json, "\n"), parse) == LineState([SseEvent(name, d)], "")
  {
    TwoLines(name, json);
    ReadTwo(name, json, d, parse);
  }

  /** The record's text splits into its two lines. */
  lemma TwoLines(name: string, json: string)
    requires OneLine(name) && OneLine(json)
    ensures Split("event: " + name + "\ndata: " + json, "\n") == ["event: " + name, "data: " + json]
  {
    var l0, l1 := "event: " + name, "data: " + json;
    assert "event: " + name + "\ndata: " + json == l0 + "\n" + l1 by {
      assert "\ndata: " == "\n" + "data: ";
      AppendAssoc(l0, "\n", "data: ");
      AppendAssoc(l0 + "\n", "data: ", json);
    }
    assert Split(l0 + "\n" + l1, "\n") == [l0, l1] by {
      OneLineAppend("event: ", name);
      OneLineAppend("data: ", json);
      SplitLine(l0, l1);
      SplitOneLine(l1);
    }
  }

  lemma ReadTwo(name: string, json: string, d: Payload, parse: string -> Option<Payload>)
    requires name != "" && parse(json) == Some(d)
    ensures ReadLines(["event: " + name, "data: " + json], parse) == LineState([SseEvent(name, d)], "")
  {
    var lines := ["event: " + name, "data: " + json];
    assert lines[..1] == ["event: " + name];
    EventLine(name, LineState([], ""), parse);
    assert ReadLines(lines[..1], parse) == LineState([], name);
    DataLineRead(json, LineState([], name), parse);
  }


  /** A `data:` line with no pending event name yields nothing. */
  lemma OrphanDataIgnored(json: string, parse: string -> Option<Payload>)
    requires OneLine(json)
    ensures SseEvents("data: " + json, parse) == []
  {
    OneLineAppend("data: ", json);
    SplitOneLine("data: " + json);
    var lines := ["data: " + json];
    assert lines[..0] == [];
    assert ReadLines(lines[..0], parse) == LineState([], "");
    DataLineRead(json, LineState([], ""), parse);
    assert ReadLines(lines, parse) == ReadLine(LineState([], ""), "data: " + json, parse);
  }

  lemma ThreeLines(l0: string, l1: string, l2: string)
    requires OneLine(l0) && OneLine(l1) && OneLine(l2)
    ensures Split(l0 + "\n" + l1 + "\n" + l2, "\n") == [l0, l1, l2]
  {
    var r := l1 + "\n" + l2;
    assert Split(r, "\n") == [l1, l2] by {
      SplitLine(l1, l2);
      SplitOneLine(l2);
    }
    assert Split(l0 + "\n" + r, "\n") == [l0, l1, l2] by {
      SplitLine(l0, r);
    }
    assert l0 + "\n" + l1 + "\n" + l2 == l0 + "\n" + r;
  }

  lemma ReadThree(name: string, bad: string, good: string, d: Payload, parse: string -> Option<Payload>)
    requires name != "" && parse(bad).None? && parse(good) == Some(d)
    ensures ReadLines(["event: " + name, "data: " + bad, "data: " + good], parse) == LineState([SseEvent(name, d)], "")
  {
    var lines := ["event: " + name, "data: " + bad, "data: " + good];
    assert lines[..1] == ["event: " + name];
    assert lines[..2][..1] == lines[..1];
    assert lines[..3] == lines;
    EventLine(name, LineState([], ""), parse);
    assert ReadLines(lines[..1], parse) == LineState([], name);
    DataLineRead(bad, LineState([], name), parse);
    assert ReadLines(lines[..2], parse) == LineState([], name);
    DataLineRead(good, LineState([], name), parse);
  }

  /** An unparseable `data:` line is dropped and the event name stays pending for the next one. */
  lemma BadDataKeepsName(name: string, bad: string, good: string, d: Payload, parse: string -> Option<Payload>)
    requires name != "" && OneLine(name) && OneLine(bad) && OneLine(good)
    requires parse(bad).None? && parse(good) == Some(d)
    ensures SseEvents("event: " + name + "\ndata: " + bad + "\ndata: " + good, parse) == [SseEvent(name, d)]
  {
    OneLineAppend("event: ", name);
    OneLineAppend("data: ", bad);
    OneLineAppend("data: ", good);
    assert "event: " + name + "\ndata: " + bad + "\ndata: " + good
        == ("event: " + name) + "\n" + ("data: " + bad) + "\n" + ("data: " + good);
    ThreeLines("event: " + name, "data: " + bad, "data: " + good);
    ReadThree(name, bad, good, d, parse);
  }


  // ---------------------------------------------------------------- records of the stream

  const RecordSeparator := "\n\n"

  /** The complete records in the text received so far (every piece but the last of the split). */
  function Records(text: string): seq<string> {
    var p := Split(text, RecordSeparator);
    p[..|p| - 1]
  }

  /** The incomplete tail kept in the buffer. */
  function Pending(text: string): string {
    var p := Split(text, RecordSeparator);
    p[|p| - 1]
  }

  /** Records arriving in two pieces: the records of the first piece, then those of its tail joined with the second. */
  lemma RecordsAppend(s: string, c: string)
    ensures Records(s + c) == Records(s) + Records(Pending(s) + c)
    ensures Pending(s + c) == Pending(Pending(s) + c)
  {
    SplitAppend(s, c, RecordSeparator);
  }

  /** The buffer left after a read holds no complete record. */
  lemma PendingHasNoRecord(s: string)
    ensures Records(Pending(s)) == [] && Pending(Pending(s)) == Pending(s)
  {
    SplitLast(s, RecordSeparator);
  }

  /** The events of one record: none for a blank one (line 206). */
  function RecordEvents(part: string, parse: string -> Option<Payload>): seq<SseEvent> {
    if Blank(part) then [] else SseEvents(part, parse)
  }

  function Reader(parse: string -> Option<Payload>): string -> seq<SseEvent> {
    part => RecordEvents(part, parse)
  }

  /** The events of a sequence of records, read one record at a time by `read`. */
  function EventsOf(parts: seq<string>, read: string -> seq<SseEvent>): seq<SseEvent> {
    if parts == [] then []
    else EventsOf(parts[..|parts| - 1], read) + read(parts[|parts| - 1])
  }

  lemma {:induction false} EventsOfAppend(a: seq<string>, b: seq<string>, read: string -> seq<SseEvent>)
    ensures EventsOf(a + b, read) == EventsOf(a, read) + EventsOf(b, read)
    decreases |b|
  {
    if b == [] {
      assert a + b == a;
    } else {
      InitOfAppend(a, b);
      EventsOfAppend(a, b[..|b| - 1], read);
    }
  }

  /** The events of every complete record in `text`. */
  function Events(text: string, parse: string -> Option<Payload>): seq<SseEvent> {
    EventsOf(Records(text), Reader(parse))
  }

  lemma EventsAppend(s: string, c: string, parse: string -> Option<Payload>)
    ensures Events(s + c, parse) == Events(s, parse) + EventsOf(Records(Pending(s) + c), Reader(parse))
  {
    RecordsAppend(s, c);
    EventsOfAppend(Records(s), Records(Pending(s) + c), Reader(parse));
  }

  // ---------------------------------------------------------------- the reducer

  /** A call `parseVersesFromText(text, id)` made by the hook. */
  datatype VerseScan = VerseScan(text: string, messageId: int)

  /**
   * The state one `sendMessage` call works on: the hook's state (messages, loading flags,
   * error) and the call's own variables (the two message ids, the accumulated response,
   * whether `done` arrived), plus the verse scans it requested.
   */
  datatype Turn = Turn(
    messages: seq<ChatMessage>,
    thinkingId: Option<int>,
    responseId: Option<int>,
    fullResponse: string,
    receivedDone: bool,
    loading: LoadingState,
    isLoading: bool,
    error: Option<string>,
    scans: seq<VerseScan>)

  /** The `Date.now()`-based ids: `Date.now() + 1`, `Date.now() + 2`, and the apology's `Date.now()`. */
  datatype Ids = Ids(thinking: int, response: int, failure: int)

  /** JavaScript truthiness of a `number | null` id. */
  predicate Truthy(id: Option<int>) {
    id.Some? && id.value != 0
  }

  /** `data.chunk || ''`. */
  function ChunkOf(d: Payload): string {
    d.chunk.GetOr("")
  }

  /** The thinking message's marker: the thinking-face emoji and a space. */
  const ThinkingMarker := "\U{1F914} "

  /** The generic stream error (line 261). */
  const StreamError := "Stream error occurred"

  /** `data.message || 'Stream error occurred'`: the message an `error` event is thrown with. */
  function ErrorText(d: Payload): (m: string)
    ensures m != ""
    ensures d.message.Some? && d.message.value != "" ==> m == d.message.value
  {
    var m := d.message.GetOr("");
    if m != "" then m else StreamError
  }

  /** Appends `c` to the content of every message with id `id` (lines 221-223, 240-242). */
  function AppendTo(ms: seq<ChatMessage>, id: int, c: string): (r: seq<ChatMessage>)
    ensures |r| == |ms|
    ensures forall i | 0 <= i < |ms| ::
      r[i] == (if ms[i].id == id then ms[i].(content := ms[i].content + c) else ms[i])
  {
    seq(|ms|, i requires 0 <= i < |ms| => if ms[i].id == id then ms[i].(content := ms[i].content + c) else ms[i])
  }

  /** `clearFlags` (lines 172-176); the timer it cancels is not modelled. */
  function ClearFlags(t: Turn): Turn {
    t.(isLoading := false, loading := Idle)
  }

  /** The verse scan of the full response, made when a response message exists and the text is not empty. */
  function ScanVerses(t: Turn): Turn {
    if Truthy(t.responseId) && t.fullResponse != "" then
      t.(scans := t.scans + [VerseScan(t.fullResponse, t.responseId.value)])
    else t
  }

  datatype Outcome = Running(turn: Turn) | Thrown(turn: Turn, message: string)

  /** One event through the `switch` (lines 209-262). */
  function Apply(t: Turn, e: SseEvent, ids: Ids): Outcome {
    if e.name == "thinking" then
      var c := ChunkOf(e.data);
      var t' := t.(loading := Thinking);
      if !Truthy(t.thinkingId) then
        Running(t'.(thinkingId := Some(ids.thinking),
                    messages := t.messages + [ChatMessage(ids.thinking, Assistant, ThinkingMarker + c, ThinkingMessage)]))
      else
        Running(t'.(messages := AppendTo(t.messages, t.thinkingId.value, c)))
    else if e.name == "response" then
      var c := ChunkOf(e.data);
      var t' := t.(loading := Generating, fullResponse := t.fullResponse + c);
      if !Truthy(t.responseId) then
        Running(t'.(responseId := Some(ids.response),
                    messages := t.messages + [ChatMessage(ids.response, Assistant, c, ResponseMessage)]))
      else
        Running(t'.(messages := AppendTo(t.messages, t.responseId.value, c)))
    else if e.name == "done" then
      Running(ClearFlags(ScanVerses(t).(receivedDone := true)))
    else if e.name == "error" then
      Thrown(t, ErrorText(e.data))
    else
      Running(t)
  }

  /** The events in order; a thrown error stops the fold. */
  function ApplyAll(t: Turn, evs: seq<SseEvent>, ids: Ids): Outcome {
    if evs == [] then Running(t)
    else
      match ApplyAll(t, evs[..|evs| - 1], ids)
      case Thrown(u, m) => Thrown(u, m)
      case Running(u) => Apply(u, evs[|evs| - 1], ids)
  }

  /** Once an event throws, later events change nothing. */
  lemma {:induction false} ThrownIsFinal(t: Turn, evs: seq<SseEvent>, more: seq<SseEvent>, ids: Ids)
    requires ApplyAll(t, evs, ids).Thrown?
    ensures ApplyAll(t, evs + more, ids) == ApplyAll(t, evs, ids)
    decreases |more|
  {
    if more == [] {
      assert evs + more == evs;
    } else {
      var m' := more[..|more| - 1];
      assert (evs + more)[..|evs + more| - 1] == evs + m';
      ThrownIsFinal(t, evs, m', ids);
    }
  }

  /** The message of the apology added by the `catch` block. */
  const Apology := "عذراً، حدث خطأ في المعالجة. يرجى المحاولة مرة أخرى."

  /** The fallback error text when the thrown error has no message. */
  const ChatError := "حدث خطأ في المحادثة"

  /** The `catch` block (lines 267-278). */
  function Catch(t: Turn, message: string, ids: Ids): Turn {
    t.(error := Some(if message != "" then message else ChatError),
       messages := t.messages + [ChatMessage(ids.failure, Assistant, Apology, ResponseMessage)],
       isLoading := false,
       loading := Idle)
  }

  /** The end of the stream with an empty buffer (lines 185-199). */
  function Finish(t: Turn): Turn {
    ClearFlags(ScanVerses(t))
  }

  /**
   * How the read loop leaves: the stream ended with nothing left over (`Closed`), an `error`
   * event threw (`Failed`, after the `catch` block), or the stream ended with a non-blank
   * partial record in the buffer, on which the loop goes on reading forever (`Spinning`).
   */
  datatype LoopEnd = Closed(turn: Turn) | Failed(turn: Turn) | Spinning(turn: Turn)

  /** What the read loop makes of the whole received text. */
  function Digest(text: string, start: Turn, parse: string -> Option<Payload>, ids: Ids): LoopEnd {
    match ApplyAll(start, Events(text, parse), ids)
    case Thrown(t, m) => Failed(Catch(t, m, ids))
    case Running(t) => if Blank(Pending(text)) then Closed(Finish(t)) else Spinning(t)
  }

  /** The events after an outcome: nothing more happens once an event has thrown. */
  function Continue(o: Outcome, evs: seq<SseEvent>, ids: Ids): Outcome {
    match o
    case Thrown(_, _) => o
    case Running(u) => ApplyAll(u, evs, ids)
  }

  lemma {:induction false} ApplyAllAppend(t: Turn, a: seq<SseEvent>, b: seq<SseEvent>, ids: Ids)
    ensures ApplyAll(t, a + b, ids) == Continue(ApplyAll(t, a, ids), b, ids)
    decreases |b|
  {
    if b == [] {
      assert a + b == a;
    } else {
      InitOfAppend(a, b);
      ApplyAllAppend(t, a, b[..|b| - 1], ids);
    }
  }

  /** The `for` loop over one record's events (lines 208-263); an `error` event leaves it by a throw. */
  method Dispatch(turn: Turn, events: seq<SseEvent>, ids: Ids) returns (outcome: Outcome)
    ensures outcome == ApplyAll(turn, events, ids)
  {
    var t := turn;
    for k := 0 to |events|
      invariant ApplyAll(turn, events[..k], ids) == Running(t)
    {
      assert events[..k + 1][..k] == events[..k];
      var o := Apply(t, events[k], ids);
      if o.Thrown? {
        ThrownIsFinal(turn, events[..k + 1], events[k + 1..], ids);
        assert events[..k + 1] + events[k + 1..] == events;
        return o;
      }
      t := o.turn;
    }
    assert events[..|events|] == events;
    outcome := Running(t);
  }

  /** The `for` loop over the complete records of one read (lines 205-264). */
  method ProcessRecords(turn: Turn, parts: seq<string>, parse: string -> Option<Payload>, ids: Ids) returns (outcome: Outcome)
    ensures outcome == ApplyAll(turn, EventsOf(parts, Reader(parse)), ids)
  {
    var t := turn;
    for j := 0 to |parts|
      invariant ApplyAll(turn, EventsOf(parts[..j], Reader(parse)), ids) == Running(t)
    {
      RecordStep(parts, j, Reader(parse));
      ApplyAllAppend(turn, EventsOf(parts[..j], Reader(parse)), Reader(parse)(parts[j]), ids);
      if Trim(parts[j]) == "" {
        assert Reader(parse)(parts[j]) == [];
        continue;
      }
      var events := ParseSseChunk(parts[j], parse);
      assert events == Reader(parse)(parts[j]);
      var o := Dispatch(t, events, ids);
      if o.Thrown? {
        RecordsPrefix(parts, j + 1, Reader(parse));
        ThrownPrefix(turn, EventsOf(parts[..j + 1], Reader(parse)), EventsOf(parts, Reader(parse)), ids);
        return o;
      }
      t := o.turn;
    }
    assert parts[..|parts|] == parts;
    outcome := Running(t);
  }

  /**
   * The reads of the loop (lines 183-184, 201-264) over the decoded chunks `chunks`: each read
   * extends the buffer, hands its complete records on and keeps the trailing partial record.
   * What the reads produce depends only on the concatenation of the chunks, however the text
   * was cut into reads; a thrown error leaves the loop at once.
   */
  method ReadChunks(chunks: seq<string>, start: Turn, parse: string -> Option<Payload>, ids: Ids)
    returns (outcome: Outcome, buffer: string)
    ensures outcome == ApplyAll(start, Events(Concat(chunks), parse), ids)
    ensures outcome.Running? ==> buffer == Pending(Concat(chunks))
  {
    buffer := "";
    var turn := start;
    var i := 0;
    while i < |chunks|
      invariant 0 <= i <= |chunks|
      invariant buffer == Pending(Concat(chunks[..i]))
      invariant ApplyAll(start, Events(Concat(chunks[..i]), parse), ids) == Running(turn)
    {
      ghost var before := Concat(chunks[..i]);
      ChunkStep(chunks, i, parse);
      buffer := buffer + chunks[i];
      var parts := Split(buffer, RecordSeparator);
      buffer := parts[|parts| - 1];
      parts := parts[..|parts| - 1];
      assert parts == Records(Pending(before) + chunks[i]);
      ApplyAllAppend(start, Events(before, parse), EventsOf(parts, Reader(parse)), ids);
      outcome := ProcessRecords(turn, parts, parse, ids);
      if outcome.Thrown? {
        ChunkEventsPrefix(chunks, i, parse);
        ThrownPrefix(start, Events(before, parse) + EventsOf(parts, Reader(parse)), Events(Concat(chunks), parse), ids);
        return;
      }
      turn := outcome.turn;
      i := i + 1;
    }
    assert chunks[..i] == chunks;
    outcome := Running(turn);
  }

  /**
   * The read loop as written (lines 183-265): after the last chunk the reader reports done, and
   * the loop leaves only when the buffer is blank (lines 185-199). A non-blank partial record
   * left in the buffer keeps it reading forever (see `EndedReadChangesNothing`).
   */
  method ReadLoop(chunks: seq<string>, start: Turn, parse: string -> Option<Payload>, ids: Ids) returns (exit: LoopEnd)
    ensures exit == Digest(Concat(chunks), start, parse, ids)
  {
    var outcome, buffer := ReadChunks(chunks, start, parse, ids);
    match outcome
    case Thrown(t, m) =>
      exit := Failed(Catch(t, m, ids));
    case Running(t) =>
      if Trim(buffer) == "" {
        exit := Closed(Finish(t));
      } else {
        exit := Spinning(t);
      }
  }

  /**
   * The end of stream as evidently intended: when the reader reports done, what is left in the
   * buffer is handled as a last record, and then the loop leaves.
   */
  function DigestFlushed(text: string, start: Turn, parse: string -> Option<Payload>, ids: Ids): (r: LoopEnd)
    ensures !r.Spinning?
    ensures Blank(Pending(text)) ==> r == Digest(text, start, parse, ids)
  {
    var evs := Events(text, parse);
    assert Blank(Pending(text)) ==> evs + RecordEvents(Pending(text), parse) == evs;
    match ApplyAll(start, evs + RecordEvents(Pending(text), parse), ids)
    case Thrown(t, m) => Failed(Catch(t, m, ids))
    case Running(t) => Closed(Finish(t))
  }

  /** The read loop with the corrected end of stream: the partial record is dispatched before leaving. */
  method ReadLoopFlushed(chunks: seq<string>, start: Turn, parse: string -> Option<Payload>, ids: Ids) returns (exit: LoopEnd)
    ensures exit == DigestFlushed(Concat(chunks), start, parse, ids)
  {
    var outcome, buffer := ReadChunks(chunks, start, parse, ids);
    ghost var evs := Events(Concat(chunks), parse);
    if outcome.Running? {
      ApplyAllAppend(start, evs, RecordEvents(buffer, parse), ids);
      if Trim(buffer) != "" {
        var events := ParseSseChunk(buffer, parse);
        outcome := Dispatch(outcome.turn, events, ids);
      } else {
        assert evs + RecordEvents(buffer, parse) == evs;
      }
    } else {
      ThrownIsFinal(start, evs, RecordEvents(Pending(Concat(chunks)), parse), ids);
    }
    match outcome
    case Thrown(t, m) =>
      exit := Failed(Catch(t, m, ids));
    case Running(t) =>
      exit := Closed(Finish(t));
  }

  /**
   * After the reader has reported done, a further pass of the loop adds `decoder.decode(undefined)`,
   * the empty string, to the buffer: no record is completed and the buffer is left as it was, so
   * the exit test at line 185 sees the same non-blank buffer again.
   */
  lemma EndedReadChangesNothing(text: string)
    ensures Records(Pending(text) + "") == [] && Pending(Pending(text) + "") == Pending(text)
  {
    assert Pending(text) + "" == Pending(text);
    PendingHasNoRecord(text);
  }

  /** Text with no blank line in it is one partial record. */
  lemma NoSeparator(s: string)
    requires forall k | 0 <= k < |s| - 1 :: !(s[k] == '\n' && s[k + 1] == '\n')
    ensures Records(s) == [] && Pending(s) == s
  {
    match IndexOf(s, RecordSeparator)
    case None =>
    case Some(k) =>
      SeparatorAt(s, k);
      assert false;
  }

  lemma SeparatorAt(s: string, k: nat)
    requires OccursAt(s, RecordSeparator, k)
    ensures k < |s| - 1 && s[k] == '\n' && s[k + 1] == '\n'
  {
    assert s[k] == s[k..k + 2][0] && s[k + 1] == s[k..k + 2][1];
  }

  /** Two lines joined by one line feed hold no blank line. */
  lemma TwoLinesNoSeparator(a: string, b: string)
    requires OneLine(a) && OneLine(b) && b != ""
    ensures Records(a + "\n" + b) == [] && Pending(a + "\n" + b) == a + "\n" + b
  {
    var s := a + "\n" + b;
    forall k | 0 <= k < |s| - 1 ensures !(s[k] == '\n' && s[k + 1] == '\n') {
      if k < |a| {
        assert s[k] == a[k];
      } else if k == |a| {
        assert s[k + 1] == b[0];
      } else {
        assert s[k] == b[k - |a| - 1];
      }
    }
    NoSeparator(s);
  }

  /**
   * A stream that ends in a record without its closing blank line: the loop as written never
   * leaves and never dispatches the record, while the flushed loop dispatches it and closes.
   */
  lemma UnterminatedRecordSpins(name: string, json: string, d: Payload, start: Turn, parse: string -> Option<Payload>, ids: Ids)
    requires name != "" && OneLine(name) && OneLine(json) && parse(json) == Some(d)
    ensures var text := "event: " + name + "\ndata: " + json;
      && Digest(text, start, parse, ids) == Spinning(start)
      && DigestFlushed(text, start, parse, ids)
         == match Apply(start, SseEvent(name, d), ids)
            case Thrown(t, m) => Failed(Catch(t, m, ids))
            case Running(t) => Closed(Finish(t))
  {
    var l0, l1 := "event: " + name, "data: " + json;
    var text := "event: " + name + "\ndata: " + json;
    assert text == l0 + "\n" + l1;
    OneLineAppend("event: ", name);
    OneLineAppend("data: ", json);
    TwoLinesNoSeparator(l0, l1);
    assert text[0] == 'e';
    assert !Blank(text);
    assert Events(text, parse) == [];
    OneRecordOneEvent(name, json, d, parse);
    var e := SseEvent(name, d);
    assert RecordEvents(text, parse) == [e];
    assert [] + [e] == [e];
    ApplySnoc(start, [], e, start, ids);
  }

  lemma ApplySnoc(t: Turn, evs: seq<SseEvent>, e: SseEvent, u: Turn, ids: Ids)
    requires ApplyAll(t, evs, ids) == Running(u)
    ensures ApplyAll(t, evs + [e], ids) == Apply(u, e, ids)
  {
    assert (evs + [e])[..|evs|] == evs;
  }

  /** One read: the buffer takes the chunk, its complete records are handed on, and the tail stays. */
  lemma ChunkStep(chunks: seq<string>, i: nat, parse: string -> Option<Payload>)
    requires i < |chunks|
    ensures var before := Concat(chunks[..i]);
      var fed := Pending(before) + chunks[i];
      && Events(Concat(chunks[..i + 1]), parse) == Events(before, parse) + EventsOf(Records(fed), Reader(parse))
      && Pending(Concat(chunks[..i + 1])) == Pending(fed)
  {
    assert chunks[..i + 1][..i] == chunks[..i];
    EventsAppend(Concat(chunks[..i]), chunks[i], parse);
    RecordsAppend(Concat(chunks[..i]), chunks[i]);
  }

  lemma RecordStep(parts: seq<string>, j: nat, read: string -> seq<SseEvent>)
    requires j < |parts|
    ensures EventsOf(parts[..j + 1], read) == EventsOf(parts[..j], read) + read(parts[j])
  {
    assert parts[..j + 1][..j] == parts[..j];
  }

  /** Once an event throws, a longer event sequence ends in the same throw. */
  lemma ThrownPrefix(t: Turn, evs: seq<SseEvent>, longer: seq<SseEvent>, ids: Ids)
    requires evs <= longer && ApplyAll(t, evs, ids).Thrown?
    ensures ApplyAll(t, longer, ids) == ApplyAll(t, evs, ids)
  {
    assert longer == evs + longer[|evs|..];
    ThrownIsFinal(t, evs, longer[|evs|..], ids);
  }

  /** The events of `before` and of the records its tail completes with `c` come first in the events of `before + c + rest`. */
  lemma TextEventsPrefix(before: string, c: string, rest: string, parse: string -> Option<Payload>)
    ensures Events(before, parse) + EventsOf(Records(Pending(before) + c), Reader(parse)) <= Events(before + c + rest, parse)
  {
    EventsAppend(before + c, rest, parse);
    EventsAppend(before, c, parse);
  }

  /** The events of the text received up to chunk `i` come before the events of the whole text. */
  lemma ChunkEventsPrefix(chunks: seq<string>, i: nat, parse: string -> Option<Payload>)
    requires i < |chunks|
    ensures var before := Concat(chunks[..i]);
      Events(before, parse) + EventsOf(Records(Pending(before) + chunks[i]), Reader(parse)) <= Events(Concat(chunks), parse)
  {
    ConcatAround(chunks, i);
    TextEventsPrefix(Concat(chunks[..i]), chunks[i], Concat(chunks[i + 1..]), parse);
  }

  /** The events of the first `j` records come first in the events of all of them. */
  lemma RecordsPrefix(parts: seq<string>, j: nat, read: string -> seq<SseEvent>)
    requires j <= |parts|
    ensures EventsOf(parts[..j], read) <= EventsOf(parts, read)
  {
    assert parts == parts[..j] + parts[j..];
    EventsOfAppend(parts[..j], parts[j..], read);
  }


  // ---------------------------------------------------------------- what the reducer builds

  /** Some event is named `name`. */
  predicate Has(evs: seq<SseEvent>, name: string) {
    evs != [] && (Has(evs[..|evs| - 1], name) || evs[|evs| - 1].name == name)
  }

  lemma {:induction false} HasSome(evs: seq<SseEvent>, name: string)
    ensures Has(evs, name) <==> exists i | 0 <= i < |evs| :: evs[i].name == name
  {
    if evs != [] {
      var init := evs[..|evs| - 1];
      assert forall i | 0 <= i < |init| :: init[i] == evs[i];
      HasSome(init, name);
    }
  }

  /** The chunks carried by the events named `name`, in order. */
  function Named(evs: seq<SseEvent>, name: string): seq<string> {
    if evs == [] then []
    else
      var e := evs[|evs| - 1];
      Named(evs[..|evs| - 1], name) + (if e.name == name then [ChunkOf(e.data)] else [])
  }

  /** The text of the chunks carried by the events named `name`. */
  function Text(evs: seq<SseEvent>, name: string): string {
    if evs == [] then ""
    else
      var e := evs[|evs| - 1];
      Text(evs[..|evs| - 1], name) + (if e.name == name then ChunkOf(e.data) else "")
  }

  /** `Text` is the concatenation of the chunks `Named` lists. */
  lemma {:induction false} TextIsConcat(evs: seq<SseEvent>, name: string)
    ensures Text(evs, name) == Concat(Named(evs, name))
  {
    if evs != [] {
      var init, e := evs[..|evs| - 1], evs[|evs| - 1];
      TextIsConcat(init, name);
      if e.name == name {
        ConcatAppend(Named(init, name), [ChunkOf(e.data)]);
        assert Concat([ChunkOf(e.data)]) == Concat([]) + ChunkOf(e.data);
      } else {
        assert Named(init, name) + [] == Named(init, name);
        assert Text(init, name) + "" == Text(init, name);
      }
    }
  }

  lemma {:induction false} NamedNone(evs: seq<SseEvent>, name: string)
    requires !Has(evs, name)
    ensures Named(evs, name) == [] && Text(evs, name) == ""
  {
    if evs != [] {
      NamedNone(evs[..|evs| - 1], name);
    }
  }

  /** The messages with id `id`, in order. */
  function WithId(ms: seq<ChatMessage>, id: int): seq<ChatMessage> {
    if ms == [] then []
    else WithId(ms[..|ms| - 1], id) + (if ms[|ms| - 1].id == id then [ms[|ms| - 1]] else [])
  }

  lemma {:induction false} WithIdNone(ms: seq<ChatMessage>, id: int)
    requires forall k | 0 <= k < |ms| :: ms[k].id != id
    ensures WithId(ms, id) == []
  {
    if ms != [] {
      WithIdNone(ms[..|ms| - 1], id);
    }
  }

  lemma WithIdSnoc(ms: seq<ChatMessage>, m: ChatMessage, id: int)
    ensures WithId(ms + [m], id) == WithId(ms, id) + (if m.id == id then [m] else [])
  {
    assert (ms + [m])[..|ms|] == ms;
  }

  /** Appending to the one message with id `id` changes that message and no message with another id. */
  lemma {:induction false} WithIdAppendTo(ms: seq<ChatMessage>, id: int, c: string, other: int)
    requires |WithId(ms, id)| <= 1
    ensures WithId(AppendTo(ms, id, c), other)
         == if other != id then WithId(ms, other)
            else if WithId(ms, id) == [] then []
            else [WithId(ms, id)[0].(content := WithId(ms, id)[0].content + c)]
  {
    if ms != [] {
      var init := ms[..|ms| - 1];
      var last := ms[|ms| - 1];
      var changed := if last.id == id then last.(content := last.content + c) else last;
      assert ms == init + [last];
      assert WithId(ms, id) == WithId(init, id) + (if last.id == id then [last] else []);
      assert WithId(ms, other) == WithId(init, other) + (if last.id == other then [last] else []);
      WithIdAppendTo(init, id, c, other);
      AppendToLast(init, last, id, c, other);
      if other != id {
        assert last.id == other ==> changed == last;
      } else if last.id == id {
        assert WithId(init, id) == [];
        assert WithId(ms, id) == [last];
      } else {
        assert WithId(ms, id) == WithId(init, id);
      }
    }
  }

  /** `AppendTo` on one more message: the messages with id `other` gain that message, updated. */
  lemma AppendToLast(init: seq<ChatMessage>, last: ChatMessage, id: int, c: string, other: int)
    ensures var changed := if last.id == id then last.(content := last.content + c) else last;
      WithId(AppendTo(init + [last], id, c), other)
      == WithId(AppendTo(init, id, c), other) + (if last.id == other then [changed] else [])
  {
    var ms := init + [last];
    var changed := if last.id == id then last.(content := last.content + c) else last;
    assert AppendTo(ms, id, c) == AppendTo(init, id, c) + [changed] by {
      assert forall i | 0 <= i < |init| :: AppendTo(ms, id, c)[i] == AppendTo(init, id, c)[i];
    }
    WithIdSnoc(AppendTo(init, id, c), changed, other);
  }

  /** Appending to messages with id `id` leaves a prefix with no such message as it was. */
  lemma AppendToKeeps(ms: seq<ChatMessage>, id: int, c: string, n: nat)
    requires n <= |ms| && forall k | 0 <= k < n :: ms[k].id != id
    ensures AppendTo(ms, id, c)[..n] == ms[..n]
  {
  }

  /** The ids the reducer gives out are not zero, differ, and belong to no earlier message. */
  predicate FreshIds(base: seq<ChatMessage>, ids: Ids) {
    && ids.thinking != 0 && ids.response != 0 && ids.thinking != ids.response
    && forall k | 0 <= k < |base| :: base[k].id != ids.thinking && base[k].id != ids.response
  }

  /** A turn as `sendMessage` starts reading: no assistant message yet and no response text. */
  predicate Opening(t: Turn) {
    t.thinkingId.None? && t.responseId.None? && t.fullResponse == ""
  }

  /** The thinking message's content for the events so far. */
  function ThinkingContent(evs: seq<SseEvent>): string {
    ThinkingMarker + Text(evs, "thinking")
  }

  lemma ThinkingContentSnoc(evs: seq<SseEvent>, e: SseEvent)
    requires e.name == "thinking"
    ensures ThinkingContent(evs + [e]) == ThinkingContent(evs) + ChunkOf(e.data)
  {
    Snoc(evs, e, "thinking");
  }

  /** The content of the thinking message so far, if one has been opened. */
  function ThinkingSoFar(evs: seq<SseEvent>): Option<string> {
    if Has(evs, "thinking") then Some(ThinkingContent(evs)) else None
  }

  /** The content of the response message so far, if one has been opened. */
  function ResponseSoFar(evs: seq<SseEvent>): Option<string> {
    if Has(evs, "response") then Some(Text(evs, "response")) else None
  }

  /** The assistant message with id `id`, if it has content. */
  function MessageOf(id: int, content: Option<string>, kind: Kind): seq<ChatMessage> {
    if content.Some? then [ChatMessage(id, Assistant, content.value, kind)] else []
  }

  function IdOf(id: int, content: Option<string>): Option<int> {
    if content.Some? then Some(id) else None
  }

  function Count(content: Option<string>): nat {
    if content.Some? then 1 else 0
  }

  /**
   * The messages of `t`: those of `base` kept as they were, then at most one thinking and at
   * most one response message with the given contents, and nothing else.
   */
  predicate Shaped(base: seq<ChatMessage>, t: Turn, ids: Ids, thinking: Option<string>, response: Option<string>) {
    && |base| <= |t.messages|
    && t.messages[..|base|] == base
    && |t.messages| == |base| + Count(thinking) + Count(response)
    && t.thinkingId == IdOf(ids.thinking, thinking)
    && t.responseId == IdOf(ids.response, response)
    && WithId(t.messages, ids.thinking) == MessageOf(ids.thinking, thinking, ThinkingMessage)
    && WithId(t.messages, ids.response) == MessageOf(ids.response, response, ResponseMessage)
  }

  /**
   * What the reducer has built from events with no `error` among them: the earlier messages are
   * kept as they were; at most one thinking message is added, holding the marker and every
   * thinking chunk in order; at most one response message is added, holding every response chunk
   * in order, which is also the accumulated response text; nothing else is added.
   */
  predicate Built(start: Turn, evs: seq<SseEvent>, t: Turn, ids: Ids) {
    && Shaped(start.messages, t, ids, ThinkingSoFar(evs), ResponseSoFar(evs))
    && t.fullResponse == Text(evs, "response")
  }

  lemma Snoc(evs: seq<SseEvent>, e: SseEvent, name: string)
    ensures Text(evs + [e], name) == if e.name == name then Text(evs, name) + ChunkOf(e.data) else Text(evs, name)
    ensures Has(evs + [e], name) == (Has(evs, name) || e.name == name)
  {
    assert (evs + [e])[..|evs|] == evs;
    assert Text(evs, name) + "" == Text(evs, name);
  }

  /** An event of another name leaves what has been received for `name` as it was. */
  lemma OtherName(evs: seq<SseEvent>, e: SseEvent)
    requires e.name != "thinking"
    ensures ThinkingSoFar(evs + [e]) == ThinkingSoFar(evs)
  {
    Snoc(evs, e, "thinking");
  }

  lemma OtherThanResponse(evs: seq<SseEvent>, e: SseEvent)
    requires e.name != "response"
    ensures ResponseSoFar(evs + [e]) == ResponseSoFar(evs) && Text(evs + [e], "response") == Text(evs, "response")
  {
    Snoc(evs, e, "response");
  }

  /** Adding a message with a fresh id that is the first with its id. */
  lemma ShapedOpen(base: seq<ChatMessage>, u: Turn, t: Turn, ids: Ids, m: ChatMessage)
    requires |base| <= |u.messages| && u.messages[..|base|] == base
    requires t.messages == u.messages + [m]
    ensures |base| <= |t.messages| && t.messages[..|base|] == base && |t.messages| == |u.messages| + 1
    ensures WithId(t.messages, m.id) == WithId(u.messages, m.id) + [m]
    ensures forall id | id != m.id :: WithId(t.messages, id) == WithId(u.messages, id)
  {
    assert t.messages[..|base|] == u.messages[..|base|];
    WithIdSnoc(u.messages, m, m.id);
    forall id | id != m.id ensures WithId(t.messages, id) == WithId(u.messages, id) {
      WithIdSnoc(u.messages, m, id);
    }
  }

  /** The first thinking chunk opens the thinking message. */
  lemma ThinkingOpens(start: Turn, evs: seq<SseEvent>, e: SseEvent, u: Turn, t: Turn, ids: Ids)
    requires FreshIds(start.messages, ids) && Built(start, evs, u, ids) && e.name == "thinking"
    requires !Has(evs, "thinking")
    requires t.messages == u.messages + [ChatMessage(ids.thinking, Assistant, ThinkingMarker + ChunkOf(e.data), ThinkingMessage)]
    requires t.thinkingId == Some(ids.thinking) && t.responseId == u.responseId && t.fullResponse == u.fullResponse
    ensures Built(start, evs + [e], t, ids)
  {
    var c := ChunkOf(e.data);
    var next := evs + [e];
    assert ThinkingSoFar(next) == Some(ThinkingMarker + c) by {
      Snoc(evs, e, "thinking");
      NamedNone(evs, "thinking");
      assert "" + c == c;
    }
    assert ResponseSoFar(next) == ResponseSoFar(evs) && Text(next, "response") == Text(evs, "response") by {
      NamesDiffer();
      OtherThanResponse(evs, e);
    }
    ShapedOpen(start.messages, u, t, ids, ChatMessage(ids.thinking, Assistant, ThinkingMarker + c, ThinkingMessage));
  }

  /** The event names the reducer tells apart are different strings. */
  lemma NamesDiffer()
    ensures "thinking" != "response" && "thinking" != "done" && "thinking" != "error"
    ensures "response" != "done" && "response" != "error" && "done" != "error"
  {
    assert "thinking"[0] != "response"[0] && "thinking"[0] != "done"[0] && "thinking"[0] != "error"[0];
    assert "response"[0] != "done"[0] && "response"[0] != "error"[0] && "done"[0] != "error"[0];
  }

  /** Appending `c` to the one message with id `id`, a fresh id the base does not use. */
  lemma ShapedAppend(base: seq<ChatMessage>, u: Turn, t: Turn, ids: Ids, id: int, c: string)
    requires |base| <= |u.messages| && u.messages[..|base|] == base
    requires forall k | 0 <= k < |base| :: base[k].id != id
    requires |WithId(u.messages, id)| == 1
    requires t.messages == AppendTo(u.messages, id, c)
    ensures |base| <= |t.messages| && t.messages[..|base|] == base && |t.messages| == |u.messages|
    ensures WithId(t.messages, id) == [WithId(u.messages, id)[0].(content := WithId(u.messages, id)[0].content + c)]
    ensures forall other | other != id :: WithId(t.messages, other) == WithId(u.messages, other)
  {
    UntouchedBase(base, u, id, c);
    WithIdAppendTo(u.messages, id, c, id);
    forall other | other != id ensures WithId(t.messages, other) == WithId(u.messages, other) {
      WithIdAppendTo(u.messages, id, c, other);
    }
  }

  /** Appending to a fresh id leaves the messages the turn started with as they were. */
  lemma UntouchedBase(base: seq<ChatMessage>, u: Turn, id: int, c: string)
    requires |base| <= |u.messages| && u.messages[..|base|] == base
    requires forall k | 0 <= k < |base| :: base[k].id != id
    ensures |AppendTo(u.messages, id, c)| == |u.messages|
    ensures AppendTo(u.messages, id, c)[..|base|] == base
  {
    assert forall k | 0 <= k < |base| :: u.messages[k] == base[k];
    AppendToKeeps(u.messages, id, c, |base|);
  }

  /** Later thinking chunks are appended to the thinking message. */
  lemma ThinkingAppends(start: Turn, evs: seq<SseEvent>, e: SseEvent, u: Turn, t: Turn, ids: Ids)
    requires FreshIds(start.messages, ids) && Built(start, evs, u, ids) && e.name == "thinking"
    requires Has(evs, "thinking")
    requires t.messages == AppendTo(u.messages, ids.thinking, ChunkOf(e.data))
    requires t.thinkingId == u.thinkingId && t.responseId == u.responseId && t.fullResponse == u.fullResponse
    ensures Built(start, evs + [e], t, ids)
  {
    var c := ChunkOf(e.data);
    var next := evs + [e];
    assert ThinkingSoFar(next) == Some(ThinkingContent(evs) + c) by {
      Snoc(evs, e, "thinking");
      ThinkingContentSnoc(evs, e);
    }
    assert ResponseSoFar(next) == ResponseSoFar(evs) && Text(next, "response") == Text(evs, "response") by {
      NamesDiffer();
      OtherThanResponse(evs, e);
    }
    ShapedAppend(start.messages, u, t, ids, ids.thinking, c);
  }

  /** The first response chunk opens the response message. */
  lemma ResponseOpens(start: Turn, evs: seq<SseEvent>, e: SseEvent, u: Turn, t: Turn, ids: Ids)
    requires FreshIds(start.messages, ids) && Built(start, evs, u, ids) && e.name == "response"
    requires !Has(evs, "response")
    requires t.messages == u.messages + [ChatMessage(ids.response, Assistant, ChunkOf(e.data), ResponseMessage)]
    requires t.responseId == Some(ids.response) && t.thinkingId == u.thinkingId
    requires t.fullResponse == u.fullResponse + ChunkOf(e.data)
    ensures Built(start, evs + [e], t, ids)
  {
    var c := ChunkOf(e.data);
    var next := evs + [e];
    assert ResponseSoFar(next) == Some(c) && Text(next, "response") == c && u.fullResponse == "" by {
      Snoc(evs, e, "response");
      NamedNone(evs, "response");
      assert "" + c == c;
    }
    assert t.fullResponse == c;
    assert ThinkingSoFar(next) == ThinkingSoFar(evs) by {
      NamesDiffer();
      OtherName(evs, e);
    }
    ShapedOpen(start.messages, u, t, ids, ChatMessage(ids.response, Assistant, c, ResponseMessage));
  }

  /** Later response chunks are appended to the response message and to the response text. */
  lemma ResponseAppends(start: Turn, evs: seq<SseEvent>, e: SseEvent, u: Turn, t: Turn, ids: Ids)
    requires FreshIds(start.messages, ids) && Built(start, evs, u, ids) && e.name == "response"
    requires Has(evs, "response")
    requires t.messages == AppendTo(u.messages, ids.response, ChunkOf(e.data))
    requires t.thinkingId == u.thinkingId && t.responseId == u.responseId
    requires t.fullResponse == u.fullResponse + ChunkOf(e.data)
    ensures Built(start, evs + [e], t, ids)
  {
    var c := ChunkOf(e.data);
    var next := evs + [e];
    assert ResponseSoFar(next) == Some(Text(evs, "response") + c) && Text(next, "response") == Text(evs, "response") + c by {
      Snoc(evs, e, "response");
    }
    assert ThinkingSoFar(next) == ThinkingSoFar(evs) by {
      NamesDiffer();
      OtherName(evs, e);
    }
    ShapedAppend(start.messages, u, t, ids, ids.response, c);
  }

  lemma OtherStep(start: Turn, evs: seq<SseEvent>, e: SseEvent, u: Turn, t: Turn, ids: Ids)
    requires Built(start, evs, u, ids) && e.name != "thinking" && e.name != "response"
    requires t.messages == u.messages && t.fullResponse == u.fullResponse
    requires t.thinkingId == u.thinkingId && t.responseId == u.responseId
    ensures Built(start, evs + [e], t, ids)
  {
    OtherName(evs, e);
    OtherThanResponse(evs, e);
  }

  lemma ReducerStarts(start: Turn, ids: Ids)
    requires Opening(start) && FreshIds(start.messages, ids)
    ensures Built(start, [], start, ids)
  {
    var base := start.messages;
    assert base[..|base|] == base;
    WithIdNone(base, ids.thinking);
    WithIdNone(base, ids.response);
  }

  lemma ReducerStep(start: Turn, evs: seq<SseEvent>, e: SseEvent, u: Turn, ids: Ids)
    requires FreshIds(start.messages, ids) && Built(start, evs, u, ids) && e.name != "error"
    ensures Apply(u, e, ids).Running? && Built(start, evs + [e], Apply(u, e, ids).turn, ids)
  {
    var t := Apply(u, e, ids).turn;
    assert Truthy(u.thinkingId) == Has(evs, "thinking") && Truthy(u.responseId) == Has(evs, "response");
    if e.name == "thinking" {
      if !Has(evs, "thinking") {
        ThinkingOpens(start, evs, e, u, t, ids);
      } else {
        ThinkingAppends(start, evs, e, u, t, ids);
      }
    } else if e.name == "response" {
      if !Has(evs, "response") {
        ResponseOpens(start, evs, e, u, t, ids);
      } else {
        ResponseAppends(start, evs, e, u, t, ids);
      }
    } else {
      OtherStep(start, evs, e, u, t, ids);
    }
  }

  /** The reducer over events with no `error` among them builds exactly the messages `Built` describes. */
  lemma {:induction false} ReducerBuilds(start: Turn, evs: seq<SseEvent>, ids: Ids)
    requires Opening(start) && FreshIds(start.messages, ids) && !Has(evs, "error")
    ensures ApplyAll(start, evs, ids).Running?
    ensures Built(start, evs, ApplyAll(start, evs, ids).turn, ids)
  {
    if evs == [] {
      ReducerStarts(start, ids);
    } else {
      var init, e := evs[..|evs| - 1], evs[|evs| - 1];
      assert init + [e] == evs;
      ReducerBuilds(start, init, ids);
      var u := ApplyAll(start, init, ids).turn;
      ReducerStep(start, init, e, u, ids);
      ApplySnoc(start, init, e, u, ids);
    }
  }


  // ---------------------------------------------------------------- errors and the `done` event

  lemma {:induction false} HasAppend(a: seq<SseEvent>, b: seq<SseEvent>, name: string)
    ensures Has(a + b, name) <==> Has(a, name) || Has(b, name)
    decreases |b|
  {
    if b == [] {
      assert a + b == a;
    } else {
      InitOfAppend(a, b);
      HasAppend(a, b[..|b| - 1], name);
    }
  }

  lemma {:induction false} TextAppend(a: seq<SseEvent>, b: seq<SseEvent>, name: string)
    ensures Text(a + b, name) == Text(a, name) + Text(b, name)
    decreases |b|
  {
    if b == [] {
      assert a + b == a;
    } else {
      var front, e := b[..|b| - 1], b[|b| - 1];
      var x := if e.name == name then ChunkOf(e.data) else "";
      assert Text(a + b, name) == Text(a + front, name) + x by {
        assert a + b == (a + front) + [e];
        Snoc(a + front, e, name);
      }
      assert Text(b, name) == Text(front, name) + x by {
        assert b == front + [e];
        Snoc(front, e, name);
      }
      TextAppend(a, front, name);
      AppendAssoc(Text(a, name), Text(front, name), x);
    }
  }

  /** The fold throws exactly when some event is an `error`. */
  lemma {:induction false} ThrowsIffError(t: Turn, evs: seq<SseEvent>, ids: Ids)
    ensures ApplyAll(t, evs, ids).Thrown? <==> Has(evs, "error")
  {
    if evs != [] {
      ThrowsIffError(t, evs[..|evs| - 1], ids);
    }
  }

  /** A throw comes from the first `error` event, with its message, in the state the events before it built. */
  lemma {:induction false} ThrownAt(t: Turn, evs: seq<SseEvent>, ids: Ids) returns (k: nat)
    requires ApplyAll(t, evs, ids).Thrown?
    ensures k < |evs| && evs[k].name == "error" && !Has(evs[..k], "error")
    ensures ApplyAll(t, evs[..k], ids).Running?
    ensures ApplyAll(t, evs, ids) == Thrown(ApplyAll(t, evs[..k], ids).turn, ErrorText(evs[k].data))
  {
    var init := evs[..|evs| - 1];
    if ApplyAll(t, init, ids).Thrown? {
      k := ThrownAt(t, init, ids);
      assert init[..k] == evs[..k];
    } else {
      k := |evs| - 1;
      assert init == evs[..k];
      ThrowsIffError(t, init, ids);
    }
  }

  /**
   * An `error` event ends the turn in the catch block (lines 260-261, 267-277): the messages
   * built before the first error are kept, exactly one apology is appended, the error is
   * reported with the event's message, and loading is over. `k` is that event's position.
   */
  lemma ErrorEndsTurn(text: string, start: Turn, parse: string -> Option<Payload>, ids: Ids) returns (k: nat)
    requires Opening(start) && FreshIds(start.messages, ids)
    requires Has(Events(text, parse), "error")
    ensures var evs := Events(text, parse);
      && k < |evs| && evs[k].name == "error" && !Has(evs[..k], "error")
    ensures var r := Digest(text, start, parse, ids);
      var u := ApplyAll(start, Events(text, parse)[..k], ids).turn;
      && r.Failed?
      && Built(start, Events(text, parse)[..k], u, ids)
      && r.turn.messages == u.messages + [ChatMessage(ids.failure, Assistant, Apology, ResponseMessage)]
      && r.turn.error == Some(ErrorText(Events(text, parse)[k].data))
      && !r.turn.isLoading && r.turn.loading == Idle
  {
    var evs := Events(text, parse);
    ThrowsIffError(start, evs, ids);
    k := ThrownAt(start, evs, ids);
    ReducerBuilds(start, evs[..k], ids);
  }

  /**
   * Without an `error` event the loop leaves through the exit test (lines 185-199) exactly when
   * the leftover buffer is blank, with loading over and the messages `Built` describes.
   */
  lemma StreamCloses(text: string, start: Turn, parse: string -> Option<Payload>, ids: Ids)
    requires Opening(start) && FreshIds(start.messages, ids) && !Has(Events(text, parse), "error")
    ensures var r := Digest(text, start, parse, ids);
      && !r.Failed? && (r.Closed? <==> Blank(Pending(text)))
      && (r.Closed? ==> !r.turn.isLoading && r.turn.loading == Idle)
      && Built(start, Events(text, parse), r.turn, ids)
  {
    ReducerBuilds(start, Events(text, parse), ids);
  }

  /** Once `done` has been seen, later events without an error keep `receivedDone` set and `isLoading` cleared. */
  lemma {:induction false} FlagsStay(t: Turn, evs: seq<SseEvent>, ids: Ids)
    requires t.receivedDone && !t.isLoading && !Has(evs, "error")
    ensures ApplyAll(t, evs, ids).Running?
    ensures ApplyAll(t, evs, ids).turn.receivedDone && !ApplyAll(t, evs, ids).turn.isLoading
  {
    if evs != [] {
      FlagsStay(t, evs[..|evs| - 1], ids);
    }
  }

  /** The events after a `done` are still applied and keep its flags. */
  lemma AfterDone(t: Turn, pre: seq<SseEvent>, d: SseEvent, post: seq<SseEvent>, ids: Ids)
    requires ApplyAll(t, pre, ids).Running? && d.name == "done" && !Has(post, "error")
    ensures var r := ApplyAll(t, pre + [d] + post, ids);
      r.Running? && r.turn.receivedDone && !r.turn.isLoading
  {
    var u := ApplyAll(t, pre, ids).turn;
    ApplySnoc(t, pre, d, u, ids);
    ApplyAllAppend(t, pre + [d], post, ids);
    FlagsStay(Apply(u, d, ids).turn, post, ids);
  }

  /** A `done` event carries no response text. */
  lemma ResponseAroundDone(pre: seq<SseEvent>, d: SseEvent, post: seq<SseEvent>)
    requires d.name == "done"
    ensures Text(pre + [d] + post, "response") == Text(pre, "response") + Text(post, "response")
  {
    TextAppend(pre + [d], post, "response");
    Snoc(pre, d, "response");
  }

  /** A `response` event shows the generating stage. */
  lemma ResponseGenerates(t: Turn, evs: seq<SseEvent>, e: SseEvent, ids: Ids)
    requires ApplyAll(t, evs, ids).Running? && e.name == "response"
    ensures ApplyAll(t, evs + [e], ids).Running? && ApplyAll(t, evs + [e], ids).turn.loading == Generating
  {
    ApplySnoc(t, evs, e, ApplyAll(t, evs, ids).turn, ids);
  }

  lemma LastResponseGenerates(t: Turn, evs: seq<SseEvent>, ids: Ids)
    requires !Has(evs, "error") && evs != [] && evs[|evs| - 1].name == "response"
    ensures ApplyAll(t, evs, ids).Running? && ApplyAll(t, evs, ids).turn.loading == Generating
  {
    var init := evs[..|evs| - 1];
    assert evs == init + [evs[|evs| - 1]];
    ThrowsIffError(t, init, ids);
    ResponseGenerates(t, init, evs[|evs| - 1], ids);
  }

  /**
   * A `done` event does not leave the loop (lines 245-259): the events after it are still
   * applied, so response chunks after it still reach the response text, and a response chunk
   * after it shows the generating stage again while `isLoading` stays cleared.
   */
  lemma DoneDoesNotStop(start: Turn, pre: seq<SseEvent>, d: SseEvent, post: seq<SseEvent>, ids: Ids)
    requires Opening(start) && FreshIds(start.messages, ids) && d.name == "done"
    requires !Has(pre + [d] + post, "error")
    ensures var r := ApplyAll(start, pre + [d] + post, ids);
      && r.Running? && r.turn.receivedDone && !r.turn.isLoading
      && r.turn.fullResponse == Text(pre, "response") + Text(post, "response")
      && (post != [] && post[|post| - 1].name == "response" ==> r.turn.loading == Generating)
  {
    var evs := pre + [d] + post;
    HasAppend(pre + [d], post, "error");
    HasAppend(pre, [d], "error");
    ThrowsIffError(start, pre, ids);
    AfterDone(start, pre, d, post, ids);
    ReducerBuilds(start, evs, ids);
    ResponseAroundDone(pre, d, post);
    if post != [] && post[|post| - 1].name == "response" {
      assert evs[|evs| - 1] == post[|post| - 1];
      LastResponseGenerates(start, evs, ids);
    }
  }

  // ---------------------------------------------------------------- the history sent with a message

  /** The messages the history is taken from: user messages and assistant responses (line 143). */
  predicate InHistory(m: ChatMessage) {
    m.role == User || (m.role == Assistant && m.kind == ResponseMessage)
  }

  /** The `filter` at line 143. */
  function Kept(ms: seq<ChatMessage>): (r: seq<ChatMessage>)
    ensures |r| <= |ms|
    ensures forall m :: m in r <==> m in ms && InHistory(m)
    ensures forall m | InHistory(m) :: multiset(r)[m] == multiset(ms)[m]
  {
    if ms == [] then []
    else
      var init, m := ms[..|ms| - 1], ms[|ms| - 1];
      assert ms == init + [m];
      Kept(init) + (if InHistory(m) then [m] else [])
  }

  /** The filter works message by message: it keeps order, and keeps one message exactly when it belongs in the history. */
  lemma {:induction false} KeptAppend(a: seq<ChatMessage>, b: seq<ChatMessage>, m: ChatMessage)
    ensures Kept(a + b) == Kept(a) + Kept(b)
    ensures Kept([m]) == if InHistory(m) then [m] else []
    decreases |b|
  {
    assert [m][..0] == [];
    if b == [] {
      assert a + b == a;
    } else {
      var init, last := b[..|b| - 1], b[|b| - 1];
      InitOfAppend(a, b);
      KeptAppend(a, init, m);
      AppendAssoc(Kept(a), Kept(init), if InHistory(last) then [last] else []);
    }
  }

  /**
   * The pairs the `reduce` at lines 144-149 collects: each user message immediately followed by
   * an assistant message gives the pair of their contents, in order.
   */
  function Pairs(arr: seq<ChatMessage>): seq<(string, string)> {
    if |arr| < 2 then []
    else (if arr[0].role == User && arr[1].role == Assistant then [(arr[0].content, arr[1].content)] else [])
         + Pairs(arr[1..])
  }

  /** A pair is in the history exactly when its user message is immediately followed by its assistant message. */
  lemma {:induction false} PairsAdjacent(arr: seq<ChatMessage>, p: (string, string))
    ensures p in Pairs(arr) <==>
      exists i | 0 <= i < |arr| - 1 :: arr[i].role == User && arr[i + 1].role == Assistant
                                     && p == (arr[i].content, arr[i + 1].content)
    decreases |arr|
  {
    if |arr| >= 2 {
      var rest := arr[1..];
      PairsAdjacent(rest, p);
      assert forall i | 0 <= i < |rest| :: rest[i] == arr[i + 1];
      if exists i | 0 <= i < |arr| - 1 :: arr[i].role == User && arr[i + 1].role == Assistant
                                        && p == (arr[i].content, arr[i + 1].content) {
        var i :| 0 <= i < |arr| - 1 && arr[i].role == User && arr[i + 1].role == Assistant
                 && p == (arr[i].content, arr[i + 1].content);
        if i > 0 {
          assert rest[i - 1] == arr[i] && rest[i] == arr[i + 1];
        }
      }
    }
  }

  /** The pairs use disjoint messages, so there are at most half as many pairs as messages. */
  lemma {:induction false} PairsBound(arr: seq<ChatMessage>)
    ensures 2 * |Pairs(arr)| <= |arr|
    decreases |arr|
  {
    if |arr| >= 2 {
      if arr[0].role == User && arr[1].role == Assistant {
        var rest := arr[1..];
        if |rest| >= 2 {
          assert rest[1..] == arr[2..];
        }
        PairsBound(arr[2..]);
      } else {
        PairsBound(arr[1..]);
      }
    }
  }

  /** The history pairing (lines 142-149): the `reduce` pushes one pair per user message answered next. */
  method HistoryPairs(messages: seq<ChatMessage>) returns (context: seq<(string, string)>)
    ensures context == Pairs(Kept(messages))
  {
    var arr := Kept(messages);
    context := [];
    for i := 0 to |arr|
      invariant context + Pairs(arr[i..]) == Pairs(arr)
    {
      if i + 1 < |arr| {
        assert arr[i..][1..] == arr[i + 1..];
      }
      if arr[i].role == User && i + 1 < |arr| && arr[i + 1].role == Assistant {
        context := context + [(arr[i].content, arr[i + 1].content)];
      }
    }
    assert arr[|arr|..] == [];
  }

  // ---------------------------------------------------------------- sending a message

  /**
   * What `fetch('/api/chat')` gave: a rejection with its error's message; a failed response
   * (not ok, or no body) with its status and the `error` field of its JSON body (`None` when
   * the field is missing; a body that is not JSON reads as the field `"Network error"`); or a
   * stream, as the text each read decodes to.
   */
  datatype Reply = Refused(message: string) | HttpFailure(status: nat, errorField: Option<string>) | Streamed(chunks: seq<string>)

  /** `errData.error || \`HTTP ${response.status}\`` (line 160). */
  function HttpErrorText(status: nat, errorField: Option<string>): (m: string)
    ensures m != ""
    ensures errorField.Some? && errorField.value != "" ==> m == errorField.value
    ensures errorField.GetOr("") == "" ==> m == "HTTP " + NatToString(status)
  {
    var f := errorField.GetOr("");
    if f != "" then f else "HTTP " + NatToString(status)
  }

  /** The turn as the stream starts (lines 56-66, 165-170): the user message appended, loading. */
  function Opened(messages: seq<ChatMessage>, newMessage: string, userId: int): (t: Turn)
    ensures Opening(t) && t.isLoading && t.error.None? && t.loading == BuildingContext
  {
    Turn(messages + [ChatMessage(userId, User, newMessage, ResponseMessage)],
         None, None, "", false, BuildingContext, true, None, [])
  }

  /** How the turn ends for a reply: a failed fetch goes straight to the catch block (lines 158-161). */
  function Settle(start: Turn, reply: Reply, parse: string -> Option<Payload>, ids: Ids): LoopEnd {
    match reply
    case Refused(m) => Failed(Catch(start, m, ids))
    case HttpFailure(status, field) => Failed(Catch(start, HttpErrorText(status, field), ids))
    case Streamed(chunks) => Digest(Concat(chunks), start, parse, ids)
  }

  /** The `try` block from the request on (lines 151-278). */
  method Request(start: Turn, reply: Reply, parse: string -> Option<Payload>, ids: Ids) returns (exit: LoopEnd)
    ensures exit == Settle(start, reply, parse, ids)
  {
    match reply
    case Refused(m) =>
      exit := Failed(Catch(start, m, ids));
    case HttpFailure(status, field) =>
      exit := Failed(Catch(start, HttpErrorText(status, field), ids));
    case Streamed(chunks) =>
      exit := ReadLoop(chunks, start, parse, ids);
  }

  /** A blank message is ignored; otherwise the history sent and how the turn ended. */
  datatype Sending = Ignored | Sent(context: seq<(string, string)>, exit: LoopEnd)

  /**
   * `sendMessage` (lines 53-279) from the messages shown when it is called: the blank guard at
   * line 54, the history from the earlier messages, the request, and the read loop.
   */
  method SendMessage(messages: seq<ChatMessage>, newMessage: string, userId: int, reply: Reply,
                     parse: string -> Option<Payload>, ids: Ids) returns (r: Sending)
    ensures Blank(newMessage) ==> r == Ignored
    ensures !Blank(newMessage) ==>
      r == Sent(Pairs(Kept(messages)), Settle(Opened(messages, newMessage, userId), reply, parse, ids))
  {
    if Trim(newMessage) == "" {
      return Ignored;
    }
    var context := HistoryPairs(messages);
    var exit := Request(Opened(messages, newMessage, userId), reply, parse, ids);
    r := Sent(context, exit);
  }

  /**
   * However the turn ends, the earlier messages and then the user's message stay first, and a
   * failed fetch reports its error and appends the apology.
   */
  lemma SendKeepsConversation(messages: seq<ChatMessage>, newMessage: string, userId: int, reply: Reply,
                              parse: string -> Option<Payload>, ids: Ids)
    requires FreshIds(Opened(messages, newMessage, userId).messages, ids)
    ensures var user := ChatMessage(userId, User, newMessage, ResponseMessage);
      var t := Settle(Opened(messages, newMessage, userId), reply, parse, ids).turn;
      && |messages| + 1 <= |t.messages|
      && t.messages[..|messages| + 1] == messages + [user]
    ensures !reply.Streamed? ==>
      var t := Settle(Opened(messages, newMessage, userId), reply, parse, ids).turn;
      && t.messages == messages + [ChatMessage(userId, User, newMessage, ResponseMessage),
                                   ChatMessage(ids.failure, Assistant, Apology, ResponseMessage)]
      && t.error.Some? && t.error.value != "" && !t.isLoading && t.loading == Idle
  {
    var start := Opened(messages, newMessage, userId);
    var user := ChatMessage(userId, User, newMessage, ResponseMessage);
    assert start.messages == messages + [user];
    if reply.Streamed? {
      DigestKeepsBase(Concat(reply.chunks), start, parse, ids);
    }
  }

  /** The read loop only ever appends to the messages the turn started with. */
  lemma DigestKeepsBase(text: string, start: Turn, parse: string -> Option<Payload>, ids: Ids)
    requires Opening(start) && FreshIds(start.messages, ids)
    ensures var t := Digest(text, start, parse, ids).turn;
      |start.messages| <= |t.messages| && t.messages[..|start.messages|] == start.messages
  {
    var base := start.messages;
    if Has(Events(text, parse), "error") {
      var k := ErrorEndsTurn(text, start, parse, ids);
      var u := ApplyAll(start, Events(text, parse)[..k], ids).turn;
      assert (u.messages + [ChatMessage(ids.failure, Assistant, Apology, ResponseMessage)])[..|base|] == u.messages[..|base|];
    } else {
      StreamCloses(text, start, parse, ids);
    }
  }

}
