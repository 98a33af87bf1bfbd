/**
 * The chat relay of the server route: it drains the upstream generation job, whose data
 * events carry cumulative snapshots of the assistant message, and pushes incremental
 * `thinking`/`response` records and one closing record onto an event stream.
 *
 * The job is the input sequence of upstream events; the stream is the sequence of records
 * handed to `pushData`, in order.
 */
module ChatRoute {
  import opened Wrappers
  import opened JsString
  import opened JsonText

  // ---------------------------------------------------------------- upstream events

  /** One part of the assistant message: its `type` and its `content` (absent content as ""). */
  datatype Part = Part(kind: string, content: string)

  /** An element of an entry's `value` array: a message whose `content` is an array of parts, or anything else. */
  datatype Element = Message(parts: seq<Part>) | NotMessage

  /** An entry of a data event: its `value` is an array, or it is not. */
  datatype Entry = ArrayValue(elements: seq<Element>) | OtherValue

  datatype UpstreamEvent =
    | Data(entries: seq<Entry>)
    | Status(status: string, message: Option<string>)
    | OtherEvent
      /** The job's iterator throws; `details` is the thrown error's `message`, if any. */
    | Raise(details: Option<string>)

  /** The two fields a data snapshot can carry, "" where the part is missing or its content empty. */
  datatype Snapshot = Snapshot(tool: string, text: string)

  predicate Carries(e: Entry) {
    e.ArrayValue? && |e.elements| >= 2
  }

  /** `data.find(entry => Array.isArray(entry?.value) && entry.value.length >= 2)`, as an index. */
  function FindPayload(entries: seq<Entry>): (r: Option<nat>)
    ensures r.Some? ==> (r.value < |entries| && Carries(entries[r.value])
                         && forall j | 0 <= j < r.value :: !Carries(entries[j]))
    ensures r.None? ==> forall j | 0 <= j < |entries| :: !Carries(entries[j])
  {
    if entries == [] then None
    else if Carries(entries[0]) then Some(0)
    else match FindPayload(entries[1..])
      case None => None
      case Some(k) => Some(k + 1)
  }

  /** `content.find(c => c.type === kind)?.content`, with "" where there is none. */
  function PartText(parts: seq<Part>, kind: string): (r: string)
    ensures r != "" ==> exists i | 0 <= i < |parts| :: parts[i].kind == kind && parts[i].content == r
    ensures (forall i | 0 <= i < |parts| :: parts[i].kind != kind) ==> r == ""
    ensures forall i | 0 <= i < |parts| && parts[i].kind == kind && (forall j | 0 <= j < i :: parts[j].kind != kind) ::
      r == parts[i].content
  {
    if parts == [] then ""
    else if parts[0].kind == kind then parts[0].content
    else
      var r := PartText(parts[1..], kind);
      assert r != "" ==> exists i | 1 <= i < |parts| :: parts[i].kind == kind && parts[i].content == r;
      r
  }

  /** Lines 60-64 and the two `find`s: the snapshot a data event carries, if any. */
  function Decode(entries: seq<Entry>): Option<Snapshot> {
    match FindPayload(entries)
    case None => None
    case Some(k) =>
      match entries[k].elements[1]
      case NotMessage => None
      case Message(parts) => Some(Snapshot(PartText(parts, "tool"), PartText(parts, "text")))
  }

  // ---------------------------------------------------------------- records

  /** The objects handed to `pushData` as its `data` argument. */
  datatype Payload =
    | ChunkData(chunk: string)
    | MessageData(message: string)
    | FailureData(message: string, details: Option<string>)

  datatype Record = Record(event: string, data: Payload)

  /** `JSON.stringify(data)`; a `details` that is `undefined` is omitted, as `JSON.stringify` does. */
  function Stringify(p: Payload): string {
    match p
    case ChunkData(c) => "{\"chunk\":" + Quote(c) + "}"
    case MessageData(m) => "{\"message\":" + Quote(m) + "}"
    case FailureData(m, None) => "{\"message\":" + Quote(m) + "}"
    case FailureData(m, Some(d)) => "{\"message\":" + Quote(m) + ",\"details\":" + Quote(d) + "}"
  }

  /** The record body that precedes the blank line. */
  function Body(r: Record): string {
    "event: " + r.event + "\ndata: " + Stringify(r.data)
  }

  /** What `pushData(event, data)` enqueues. */
  function Frame(r: Record): string {
    Body(r) + "\n\n"
  }

  /** The whole text of the stream. */
  function Wire(rs: seq<Record>): string {
    if rs == [] then "" else Wire(rs[..|rs| - 1]) + Frame(rs[|rs| - 1])
  }

  /** No `data:` line of the stream ever contains a line break. */
  lemma QuoteOneLine(s: string)
    ensures OneLine(Quote(s))
  {
    OneLineAppend("\"", Escape(s));
    OneLineAppend("\"" + Escape(s), "\"");
  }

  lemma StringifyOneLine(p: Payload)
    ensures OneLine(Stringify(p))
  {
    KeysOneLine();
    match p
    case ChunkData(c) =>
      QuoteOneLine(c);
      Wrapped("{\"chunk\":", Quote(c), "}");
    case MessageData(m) =>
      QuoteOneLine(m);
      Wrapped("{\"message\":", Quote(m), "}");
    case FailureData(m, None) =>
      QuoteOneLine(m);
      Wrapped("{\"message\":", Quote(m), "}");
    case FailureData(m, Some(d)) =>
      QuoteOneLine(m);
      QuoteOneLine(d);
      Wrapped("{\"message\":", Quote(m), ",\"details\":");
      Wrapped("{\"message\":" + Quote(m) + ",\"details\":", Quote(d), "}");
  }

  /** The fixed parts of the JSON bodies hold no line feed. */
  lemma KeysOneLine()
    ensures OneLine("{\"chunk\":") && OneLine("{\"message\":") && OneLine(",\"details\":") && OneLine("}")
  {
  }

  lemma Wrapped(open: string, body: string, close: string)
    requires OneLine(open) && OneLine(body) && OneLine(close)
    ensures OneLine(open + body + close)
  {
    OneLineAppend(open, body);
    OneLineAppend(open + body, close);
  }

  const DoneRecord := Record("done", MessageData("Stream finished"))
  const ForcedDoneRecord := Record("done", MessageData("Forced done"))

  /** `status.message || 'An error occurred'`. */
  function StatusMessage(m: Option<string>): string {
    if m.Some? && m.value != "" then m.value else "An error occurred"
  }

  function ErrorRecord(m: Option<string>): Record {
    Record("error", MessageData(StatusMessage(m)))
  }

  function FailureRecord(details: Option<string>): Record {
    Record("error", FailureData("Failed to process AI job.", details))
  }

  // ---------------------------------------------------------------- prefix diffing

  /** A tracker update: the new last-emitted text and the chunk to push, if any. */
  datatype Advanced = Advanced(last: string, chunk: Option<string>)

  /** Lines 67-70 (and 74-77): push what follows the first `|last|` characters of a new, different, non-empty text. */
  function Advance(last: string, next: string): Advanced {
    if next != "" && next != last then Advanced(next, Some(Slice(next, |last|)))
    else Advanced(last, None)
  }

  datatype Trackers = Trackers(thinking: string, response: string)

  datatype Relayed = Relayed(trackers: Trackers, pushed: seq<Record>)

  function ChunkRecords(name: string, c: Option<string>): seq<Record> {
    if c.Some? then [Record(name, ChunkData(c.value))] else []
  }

  /** One snapshot: first the `thinking` field, then the `response` field. */
  function Step(st: Relayed, s: Snapshot): Relayed {
    var t := Advance(st.trackers.thinking, s.tool);
    var r := Advance(st.trackers.response, s.text);
    Relayed(Trackers(t.last, r.last), st.pushed + ChunkRecords("thinking", t.chunk) + ChunkRecords("response", r.chunk))
  }

  /** `completed` and `error` statuses break the loop; a throwing iterator leaves it too. */
  predicate Ends(e: UpstreamEvent) {
    (e.Status? && (e.status == "completed" || e.status == "error")) || e.Raise?
  }

  /** One non-ending upstream event. */
  function Absorb(st: Relayed, e: UpstreamEvent): Relayed {
    if e.Data? then
      match Decode(e.entries)
      case Some(s) => Step(st, s)
      case None => st
    else st
  }

  const Start := Relayed(Trackers("", ""), [])

  /** The loop over a prefix of the job that holds no ending event. */
  function Scan(events: seq<UpstreamEvent>): Relayed {
    if events == [] then Start else Absorb(Scan(events[..|events| - 1]), events[|events| - 1])
  }

  /** The index of the event that leaves the loop, or `|job|` when the job runs out first. */
  function StopAt(job: seq<UpstreamEvent>): (k: nat)
    ensures k <= |job| && (k < |job| ==> Ends(job[k]))
    ensures forall j | 0 <= j < k :: !Ends(job[j])
  {
    if job == [] then 0
    else if Ends(job[0]) then 0
    else 1 + StopAt(job[1..])
  }

  /** What is pushed after the loop (lines 83-106). */
  function Closing(job: seq<UpstreamEvent>, k: nat): seq<Record>
    requires k <= |job| && (k < |job| ==> Ends(job[k]))
  {
    if k == |job| then [ForcedDoneRecord]
    else match job[k]
      case Raise(details) => [FailureRecord(details)]
      case Status(status, message) =>
        if status == "completed" then [DoneRecord]
        // the error branch leaves receivedFinalStatus false, so the forced done follows
        else [ErrorRecord(message), ForcedDoneRecord]
  }

  /** Everything the relay pushes for a job. */
  function Relay(job: seq<UpstreamEvent>): seq<Record> {
    var k := StopAt(job);
    Scan(job[..k]).pushed + Closing(job, k)
  }

  /** The `start` callback of the stream (lines 38-107). */
  method RunRelay(job: seq<UpstreamEvent>) returns (pushed: seq<Record>)
    ensures pushed == Relay(job)
  {
    var lastResponseText := "";
    var lastThinkingText := "";
    var receivedFinalStatus := false;
    pushed := [];
    var i := 0;
    while i < |job|
      invariant i <= StopAt(job)
      invariant Scan(job[..i]) == Relayed(Trackers(lastThinkingText, lastResponseText), pushed)
      invariant !receivedFinalStatus
    {
      assert job[..i + 1][..i] == job[..i];
      var event := job[i];
      assert Scan(job[..i + 1]) == Absorb(Scan(job[..i]), event);
      match event {
        case Data(entries) =>
          var snapshot := Decode(entries);
          if snapshot.Some? {
            ghost var t := Advance(lastThinkingText, snapshot.value.tool);
            ghost var r := Advance(lastResponseText, snapshot.value.text);
            ghost var before := pushed;
            var thinking := snapshot.value.tool;
            if thinking != "" && thinking != lastThinkingText {
              var chunk := Slice(thinking, |lastThinkingText|);
              lastThinkingText := thinking;
              pushed := pushed + [Record("thinking", ChunkData(chunk))];
            }
            assert lastThinkingText == t.last && pushed == before + ChunkRecords("thinking", t.chunk);
            ghost var middle := pushed;
            var response := snapshot.value.text;
            if response != "" && response != lastResponseText {
              var chunk := Slice(response, |lastResponseText|);
              lastResponseText := response;
              pushed := pushed + [Record("response", ChunkData(chunk))];
            }
            assert lastResponseText == r.last && pushed == middle + ChunkRecords("response", r.chunk);
          }
        case Status(status, message) =>
          if status == "completed" {
            pushed := pushed + [DoneRecord];
            receivedFinalStatus := true;
            break;
          } else if status == "error" {
            pushed := pushed + [ErrorRecord(message)];
            break;
          }
        case OtherEvent =>
        case Raise(details) =>
          pushed := pushed + [FailureRecord(details)];
          return;
      }
      i := i + 1;
    }
    if !receivedFinalStatus {
      pushed := pushed + [ForcedDoneRecord];
    }
  }

  // ---------------------------------------------------------------- history prefix

  const HistoryHeader := "\n\nالمحادثة السابقة:\n"

  function PairLine(p: (string, string)): string {
    "سائل: " + p.0 + "\nكاهن: " + p.1
  }

  function PairLines(context: seq<(string, string)>): (r: seq<string>)
    ensures |r| == |context| && forall i | 0 <= i < |r| :: r[i] == PairLine(context[i])
  {
    if context == [] then [] else PairLines(context[..|context| - 1]) + [PairLine(context[|context| - 1])]
  }

  /** Lines 32-34: the conversation history appended to the system prompt. */
  function History(context: seq<(string, string)>): string {
    if |context| > 0 then HistoryHeader + Join(PairLines(context), "\n") else ""
  }

  /** The outcome of a POST: a 400 for a missing message, otherwise the event stream. */
  datatype Reply = BadRequest | EventStream(systemPrompt: string, records: seq<Record>)

  /** Lines 27-37 and 110: the request guard, the full system prompt and the stream. */
  function Post(message: string, sysPrompt: string, context: seq<(string, string)>, job: seq<UpstreamEvent>): (r: Reply)
    ensures r.BadRequest? <==> message == ""
    ensures r.EventStream? ==> r.systemPrompt == sysPrompt + History(context) && r.records == Relay(job)
  {
    if message == "" then BadRequest else EventStream(sysPrompt + History(context), Relay(job))
  }
}

/** What the relay's output means: prefix-diffing, record order and the closing records. */
module ChatRouteFacts {
  import opened Wrappers
  import opened JsString
  import opened ChatRoute
  import opened Sequences

  /** The two tracked fields of a snapshot. */
  datatype Field = Tool | Text

  function FieldOf(s: Snapshot, f: Field): string {
    match f
    case Tool => s.tool
    case Text => s.text
  }

  function TrackerOf(t: Trackers, f: Field): string {
    match f
    case Tool => t.thinking
    case Text => t.response
  }

  function EventOf(f: Field): string {
    match f
    case Tool => "thinking"
    case Text => "response"
  }

  /** The non-empty texts of field `f` carried by the decodable data events, in order. */
  function Texts(events: seq<UpstreamEvent>, f: Field): seq<string> {
    if events == [] then []
    else
      var e := events[|events| - 1];
      Texts(events[..|events| - 1], f)
        + (if e.Data? && Decode(e.entries).Some? && FieldOf(Decode(e.entries).value, f) != ""
           then [FieldOf(Decode(e.entries).value, f)] else [])
  }

  function Latest(texts: seq<string>): string {
    if texts == [] then "" else texts[|texts| - 1]
  }

  /** Each text extends every earlier one. */
  predicate Chain(texts: seq<string>) {
    forall i, j | 0 <= i < j < |texts| :: texts[i] <= texts[j]
  }

  /** The chunks of the records named `name`, in order. */
  function Chunks(rs: seq<Record>, name: string): seq<string> {
    if rs == [] then []
    else
      var r := rs[|rs| - 1];
      Chunks(rs[..|rs| - 1], name) + (if r.event == name && r.data.ChunkData? then [r.data.chunk] else [])
  }

  lemma {:induction false} ChunksAppend(a: seq<Record>, b: seq<Record>, name: string)
    ensures Chunks(a + b, name) == Chunks(a, name) + Chunks(b, name)
    decreases |b|
  {
    if b == [] {
      assert a + b == a;
    } else {
      InitOfAppend(a, b);
      ChunksAppend(a, b[..|b| - 1], name);
    }
  }

  /** The records one tracker update pushes, seen through `Chunks`. */
  lemma ChunksOfStep(st: Relayed, s: Snapshot, f: Field)
    ensures var a := Advance(TrackerOf(st.trackers, f), FieldOf(s, f));
      && TrackerOf(Step(st, s).trackers, f) == a.last
      && Chunks(Step(st, s).pushed, EventOf(f)) == Chunks(st.pushed, EventOf(f)) + (if a.chunk.Some? then [a.chunk.value] else [])
  {
    var t := Advance(st.trackers.thinking, s.tool);
    var r := Advance(st.trackers.response, s.text);
    var name := EventOf(f);
    var tr := ChunkRecords("thinking", t.chunk);
    var rr := ChunkRecords("response", r.chunk);
    var base := Chunks(st.pushed, name);
    assert Chunks(Step(st, s).pushed, name) == base + Chunks(tr, name) + Chunks(rr, name) by {
      assert Step(st, s).pushed == st.pushed + tr + rr;
      ChunksAppend(st.pushed + tr, rr, name);
      ChunksAppend(st.pushed, tr, name);
    }
    ChunksOfRecords("thinking", t.chunk, name);
    ChunksOfRecords("response", r.chunk, name);
    if f == Tool {
      assert Chunks(rr, name) == [];
    } else {
      assert Chunks(tr, name) == [];
    }
  }

  lemma ChunksOfRecords(event: string, c: Option<string>, name: string)
    ensures Chunks(ChunkRecords(event, c), name) == if c.Some? && event == name then [c.value] else []
  {
    if c.Some? {
      assert ChunkRecords(event, c)[..0] == [];
    }
  }

  /** A pushed chunk is the new text with its first `|last|` characters dropped; it extends `last` when the text does. */
  lemma AdvanceChunk(last: string, next: string)
    ensures Advance(last, next).chunk.Some? <==> next != "" && next != last
    ensures Advance(last, next).chunk.None? ==> Advance(last, next).last == last
    ensures Advance(last, next).chunk.Some? ==>
      && Advance(last, next).last == next
      && Advance(last, next).chunk.value == Slice(next, |last|)
      && (last <= next ==> last + Advance(last, next).chunk.value == next)
  {
    if Advance(last, next).chunk.Some? && last <= next {
      assert next == next[..|last|] + next[|last|..];
    }
  }

  /**
   * There is no resynchronisation: when a new text does not extend the last one, the
   * chunk still drops `|last|` characters, so the texts emitted so far no longer add up to it.
   */
  lemma NonPrefixDiverges(last: string, next: string)
    requires next != "" && !(last <= next)
    ensures Advance(last, next).chunk.Some?
    ensures last + Advance(last, next).chunk.value != next
  {
    var c := Advance(last, next).chunk.value;
    if |last| <= |next| {
      assert (last + c)[..|last|] == last;
    } else {
      assert |last + c| != |next|;
    }
  }

  /** The tracker of a field always holds the latest non-empty text of that field. */
  lemma {:induction false} TrackerIsLatest(events: seq<UpstreamEvent>, f: Field)
    ensures TrackerOf(Scan(events).trackers, f) == Latest(Texts(events, f))
  {
    if events != [] {
      var init := events[..|events| - 1];
      var e := events[|events| - 1];
      var before := Texts(init, f);
      assert TrackerOf(Scan(init).trackers, f) == Latest(before) by {
        TrackerIsLatest(init, f);
      }
      if e.Data? && Decode(e.entries).Some? {
        var s := Decode(e.entries).value;
        var x := FieldOf(s, f);
        assert Scan(events) == Step(Scan(init), s);
        assert TrackerOf(Scan(events).trackers, f) == Advance(Latest(before), x).last by {
          TrackerOfStep(Scan(init), s, f);
        }
        if x != "" {
          assert Texts(events, f) == before + [x];
        } else {
          assert Texts(events, f) == before + [];
          assert before + [] == before;
        }
      } else {
        assert Scan(events) == Scan(init);
        assert Texts(events, f) == before + [];
        assert before + [] == before;
      }
    }
  }

  /** The tracker of field `f` after one snapshot. */
  lemma TrackerOfStep(st: Relayed, s: Snapshot, f: Field)
    ensures TrackerOf(Step(st, s).trackers, f) == Advance(TrackerOf(st.trackers, f), FieldOf(s, f)).last
  {
  }

  /** One snapshot keeps "the chunks add up to the tracker" when its text extends the tracker. */
  lemma ChainStep(st: Relayed, s: Snapshot, f: Field)
    requires Concat(Chunks(st.pushed, EventOf(f))) == TrackerOf(st.trackers, f)
    requires FieldOf(s, f) == "" || TrackerOf(st.trackers, f) <= FieldOf(s, f)
    ensures Concat(Chunks(Step(st, s).pushed, EventOf(f))) == TrackerOf(Step(st, s).trackers, f)
  {
    var last := TrackerOf(st.trackers, f);
    ChunksOfStep(st, s, f);
    AdvanceChunk(last, FieldOf(s, f));
    var a := Advance(last, FieldOf(s, f));
    if a.chunk.Some? {
      var c := a.chunk.value;
      ConcatAppend(Chunks(st.pushed, EventOf(f)), [c]);
      assert [c][..0] == [];
      assert Concat([c]) == c;
      assert last + c == FieldOf(s, f);
      assert Chunks(Step(st, s).pushed, EventOf(f)) == Chunks(st.pushed, EventOf(f)) + [c];
      assert Concat(Chunks(Step(st, s).pushed, EventOf(f))) == last + c;
      assert TrackerOf(Step(st, s).trackers, f) == FieldOf(s, f);
    } else {
      assert Chunks(Step(st, s).pushed, EventOf(f)) == Chunks(st.pushed, EventOf(f)) + [] == Chunks(st.pushed, EventOf(f));
      assert TrackerOf(Step(st, s).trackers, f) == last;
    }
  }

  lemma {:induction false} ChainedChunksAddUp(events: seq<UpstreamEvent>, f: Field)
    requires Chain(Texts(events, f))
    ensures Concat(Chunks(Scan(events).pushed, EventOf(f))) == TrackerOf(Scan(events).trackers, f)
  {
    if events != [] {
      var init := events[..|events| - 1];
      var e := events[|events| - 1];
      var before := Texts(init, f);
      assert Texts(events, f)[..|before|] == before;
      assert Chain(before);
      ChainedChunksAddUp(init, f);
      assert Scan(events) == Absorb(Scan(init), e);
      if e.Data? && Decode(e.entries).Some? {
        var s := Decode(e.entries).value;
        TrackerIsLatest(init, f);
        var x := FieldOf(s, f);
        if x != "" && before != [] {
          var all := Texts(events, f);
          assert all == before + [x];
          assert all[|before| - 1] <= all[|before|];
          assert Latest(before) <= x;
        }
        ChainStep(Scan(init), s, f);
      }
    }
  }

  /**
   * Prefix-diffing: when every snapshot of a field extends the previous ones, the chunks
   * pushed for that field add up to its latest snapshot.
   */
  lemma ChainedChunksConcat(events: seq<UpstreamEvent>, f: Field)
    requires Chain(Texts(events, f))
    ensures Concat(Chunks(Scan(events).pushed, EventOf(f))) == Latest(Texts(events, f))
  {
    ChainedChunksAddUp(events, f);
    TrackerIsLatest(events, f);
  }

  /** A data event that decodes to nothing changes neither tracker and pushes nothing. */
  lemma SkippedData(events: seq<UpstreamEvent>, entries: seq<Entry>)
    requires Decode(entries).None?
    ensures Scan(events + [Data(entries)]) == Scan(events)
  {
    assert (events + [Data(entries)])[..|events|] == events;
  }

  /** A data event decodes to nothing exactly when no entry carries a two-element array, or the first that does has no parts array second. */
  lemma DecodeFails(entries: seq<Entry>)
    ensures Decode(entries).None? <==>
      || (forall j | 0 <= j < |entries| :: !Carries(entries[j]))
      || (exists k | 0 <= k < |entries| :: Carries(entries[k]) && entries[k].elements[1].NotMessage?
                                            && forall j | 0 <= j < k :: !Carries(entries[j]))
  {
    var p := FindPayload(entries);
    if p.Some? && entries[p.value].elements[1].NotMessage? {
      assert Carries(entries[p.value]);
    }
  }

  /** Within one snapshot at most two records are pushed, `thinking` before `response`. */
  lemma StepOrder(st: Relayed, s: Snapshot)
    ensures |st.pushed| <= |Step(st, s).pushed| <= |st.pushed| + 2
    ensures Step(st, s).pushed[..|st.pushed|] == st.pushed
    ensures var added := Step(st, s).pushed[|st.pushed|..];
      && (forall i | 0 <= i < |added| :: added[i].data.ChunkData?)
      && (|added| == 2 ==> added[0].event == "thinking" && added[1].event == "response")
      && (|added| == 1 ==> added[0].event == (if s.tool != "" && s.tool != st.trackers.thinking then "thinking" else "response"))
  {
  }

  /** Records that each carry a chunk, under `thinking` or `response`. */
  predicate ChunkOnly(rs: seq<Record>) {
    forall i | 0 <= i < |rs| :: rs[i].data.ChunkData? && (rs[i].event == "thinking" || rs[i].event == "response")
  }

  lemma ChunkOnlyAppend(a: seq<Record>, b: seq<Record>)
    requires ChunkOnly(a) && ChunkOnly(b)
    ensures ChunkOnly(a + b)
  {
    assert forall i | |a| <= i < |a + b| :: (a + b)[i] == b[i - |a|];
  }

  /** The records of the loop are chunk records only. */
  lemma {:induction false} ScanPushesChunks(events: seq<UpstreamEvent>)
    ensures ChunkOnly(Scan(events).pushed)
  {
    if events != [] {
      var init := events[..|events| - 1];
      var e := events[|events| - 1];
      ScanPushesChunks(init);
      assert Scan(events) == Absorb(Scan(init), e);
      if e.Data? && Decode(e.entries).Some? {
        var st, s := Scan(init), Decode(e.entries).value;
        var t := ChunkRecords("thinking", Advance(st.trackers.thinking, s.tool).chunk);
        var r := ChunkRecords("response", Advance(st.trackers.response, s.text).chunk);
        assert Step(st, s).pushed == st.pushed + t + r;
        ChunkOnlyAppend(st.pushed, t);
        ChunkOnlyAppend(st.pushed + t, r);
      }
    }
  }

  lemma StopAtPrefix(pre: seq<UpstreamEvent>, e: UpstreamEvent, post: seq<UpstreamEvent>)
    requires forall j | 0 <= j < |pre| :: !Ends(pre[j])
    requires Ends(e)
    ensures StopAt(pre + [e] + post) == |pre|
    ensures (pre + [e] + post)[..|pre|] == pre
  {
    var job := pre + [e] + post;
    var k := StopAt(job);
    assert job[|pre|] == e;
    assert forall j | 0 <= j < |pre| :: job[j] == pre[j];
  }

  /** On `completed` exactly one `done` is pushed, after the loop's chunks, and nothing later is consumed. */
  lemma CompletedCloses(pre: seq<UpstreamEvent>, message: Option<string>, post: seq<UpstreamEvent>)
    requires forall j | 0 <= j < |pre| :: !Ends(pre[j])
    ensures Relay(pre + [Status("completed", message)] + post) == Scan(pre).pushed + [DoneRecord]
  {
    StopAtPrefix(pre, Status("completed", message), post);
  }

  /** On `error` the error record is pushed, and then the forced `done` as well. */
  lemma ErrorThenForcedDone(pre: seq<UpstreamEvent>, message: Option<string>, post: seq<UpstreamEvent>)
    requires forall j | 0 <= j < |pre| :: !Ends(pre[j])
    ensures Relay(pre + [Status("error", message)] + post) == Scan(pre).pushed + [ErrorRecord(message), ForcedDoneRecord]
  {
    StopAtPrefix(pre, Status("error", message), post);
  }

  /** When the job's iterator throws, the catch block pushes one error record and nothing else. */
  lemma RaiseFails(pre: seq<UpstreamEvent>, details: Option<string>, post: seq<UpstreamEvent>)
    requires forall j | 0 <= j < |pre| :: !Ends(pre[j])
    ensures Relay(pre + [Raise(details)] + post) == Scan(pre).pushed + [FailureRecord(details)]
  {
    StopAtPrefix(pre, Raise(details), post);
  }

  /** A job that runs out without a closing status gets a forced `done`, last. */
  lemma ExhaustedForcesDone(job: seq<UpstreamEvent>)
    requires forall j | 0 <= j < |job| :: !Ends(job[j])
    ensures Relay(job) == Scan(job).pushed + [ForcedDoneRecord]
  {
    RunsOut(job);
    RunOutRelay(job);
  }

  lemma RunsOut(job: seq<UpstreamEvent>)
    requires forall j | 0 <= j < |job| :: !Ends(job[j])
    ensures StopAt(job) == |job|
  {
  }

  lemma RunOutRelay(job: seq<UpstreamEvent>)
    requires StopAt(job) == |job|
    ensures Relay(job) == Scan(job).pushed + [ForcedDoneRecord]
  {
    assert job[..|job|] == job;
  }

  predicate Closes(r: Record) {
    r.event == "done" || r.event == "error"
  }

  /** All closing records come after every chunk record, and the stream always ends with one. */
  lemma ClosingLast(job: seq<UpstreamEvent>)
    ensures var rs := Relay(job); var k := StopAt(job);
      && |rs| >= 1 && Closes(rs[|rs| - 1])
      && rs[..|Scan(job[..k]).pushed|] == Scan(job[..k]).pushed
      && (forall i | 0 <= i < |Scan(job[..k]).pushed| :: !Closes(rs[i]))
      && (forall i | |Scan(job[..k]).pushed| <= i < |rs| :: Closes(rs[i]))
  {
    var k := StopAt(job);
    var pre, close := Scan(job[..k]).pushed, Closing(job, k);
    assert Relay(job) == pre + close;
    ScanPushesChunks(job[..k]);
    ChunksDontClose(pre);
    ClosingCloses(job, k);
    ClosesAfter(pre, close);
  }

  lemma ClosesAfter(pre: seq<Record>, close: seq<Record>)
    requires forall i | 0 <= i < |pre| :: !Closes(pre[i])
    requires |close| >= 1 && forall i | 0 <= i < |close| :: Closes(close[i])
    ensures var rs := pre + close;
      && Closes(rs[|rs| - 1]) && rs[..|pre|] == pre
      && (forall i | 0 <= i < |pre| :: !Closes(rs[i]))
      && (forall i | |pre| <= i < |rs| :: Closes(rs[i]))
  {
    assert forall i | |pre| <= i < |pre + close| :: (pre + close)[i] == close[i - |pre|];
  }

  lemma NotClosingNames()
    ensures "thinking" != "done" && "thinking" != "error" && "response" != "done" && "response" != "error"
  {
    assert "thinking"[0] == 't' && "response"[0] == 'r' && "done"[0] == 'd' && "error"[0] == 'e';
  }

  lemma ChunksDontClose(rs: seq<Record>)
    requires ChunkOnly(rs)
    ensures forall i | 0 <= i < |rs| :: !Closes(rs[i])
  {
    NotClosingNames();
  }

  /** What follows the loop is non-empty and made of closing records. */
  lemma ClosingCloses(job: seq<UpstreamEvent>, k: nat)
    requires k <= |job| && (k < |job| ==> Ends(job[k]))
    ensures |Closing(job, k)| >= 1 && forall i | 0 <= i < |Closing(job, k)| :: Closes(Closing(job, k)[i])
  {
  }

  /** A data event whose assistant message holds one `text` part. */
  function TextSnapshot(text: string): UpstreamEvent {
    Data([ArrayValue([NotMessage, Message([Part("text", text)])])])
  }

  function ResponseRecord(chunk: string): Record {
    Record("response", ChunkData(chunk))
  }

  lemma ScanSnoc(events: seq<UpstreamEvent>, e: UpstreamEvent)
    ensures Scan(events + [e]) == Absorb(Scan(events), e)
  {
    assert (events + [e])[..|events|] == events;
  }

  lemma DecodeTextSnapshot(text: string)
    ensures Decode(TextSnapshot(text).entries) == Some(Snapshot("", text))
  {
    var parts := [Part("text", text)];
    assert PartText(parts[1..], "tool") == "";
    assert PartText(parts, "tool") == "";
    assert PartText(parts, "text") == text;
  }

  /** Snapshots "", "H", "He", "Hello" then `completed` push "H", "e", "llo" and one `done`. */
  lemma HelloScenario()
    ensures Relay([TextSnapshot(""), TextSnapshot("H"), TextSnapshot("He"), TextSnapshot("Hello"), Status("completed", None)])
         == [ResponseRecord("H"), ResponseRecord("e"), ResponseRecord("llo"), DoneRecord]
  {
    GrowingText("H", "He", "Hello");
    assert "He"[1..] == "e" && "Hello"[2..] == "llo";
  }

  /** Three growing snapshots after an empty one push the three increments, then `done`. */
  lemma GrowingText(a: string, b: string, c: string)
    requires "" < a < b < c
    ensures Relay([TextSnapshot(""), TextSnapshot(a), TextSnapshot(b), TextSnapshot(c), Status("completed", None)])
         == [ResponseRecord(a), ResponseRecord(b[|a|..]), ResponseRecord(c[|b|..]), DoneRecord]
  {
    var e0, e1, e2, e3 := TextSnapshot(""), TextSnapshot(a), TextSnapshot(b), TextSnapshot(c);
    var pre := [e0, e1, e2, e3];
    assert Scan(pre).pushed == [ResponseRecord(a), ResponseRecord(b[|a|..]), ResponseRecord(c[|b|..])] by {
      GrowingScan(a, b, c);
      Snoc4(e0, e1, e2, e3);
    }
    var job := [e0, e1, e2, e3, Status("completed", None)];
    assert Relay(job) == Scan(pre).pushed + [DoneRecord] by {
      DataDoesNotEnd(pre);
      CompletedCloses(pre, None, []);
      assert pre + [Status("completed", None)] + [] == job;
    }
  }

  lemma GrowingScan(a: string, b: string, c: string)
    requires "" < a < b < c
    ensures Scan([] + [TextSnapshot("")] + [TextSnapshot(a)] + [TextSnapshot(b)] + [TextSnapshot(c)]).pushed
         == [ResponseRecord(a), ResponseRecord(b[|a|..]), ResponseRecord(c[|b|..])]
  {
    var ev3 := [] + [TextSnapshot("")] + [TextSnapshot(a)] + [TextSnapshot(b)];
    var r1, r2 := ResponseRecord(a), ResponseRecord(b[|a|..]);
    assert Scan(ev3) == Relayed(Trackers("", b), [r1, r2]) by {
      GrowingTwo(a, b);
    }
    TextStep(ev3, b, c, [r1, r2]);
    AdvanceGrows(b, c);
  }

  lemma GrowingTwo(a: string, b: string)
    requires "" < a < b
    ensures Scan([] + [TextSnapshot("")] + [TextSnapshot(a)] + [TextSnapshot(b)])
         == Relayed(Trackers("", b), [ResponseRecord(a), ResponseRecord(b[|a|..])])
  {
    var r1 := ResponseRecord(a);
    var ev1 := [] + [TextSnapshot("")];
    var ev2 := ev1 + [TextSnapshot(a)];
    assert Scan(ev1) == Start by {
      TextStep([], "", "", []);
    }
    assert Scan(ev2) == Relayed(Trackers("", a), [r1]) by {
      TextStep(ev1, "", a, []);
      AdvanceGrows("", a);
      assert a[0..] == a;
    }
    TextStep(ev2, a, b, [r1]);
    AdvanceGrows(a, b);
  }

  lemma AdvanceGrows(last: string, next: string)
    requires last < next
    ensures Advance(last, next) == Advanced(next, Some(next[|last|..]))
  {
  }

  lemma Snoc4<T>(x0: T, x1: T, x2: T, x3: T)
    ensures [] + [x0] + [x1] + [x2] + [x3] == [x0, x1, x2, x3]
  {
  }

  lemma DataDoesNotEnd(events: seq<UpstreamEvent>)
    requires forall j | 0 <= j < |events| :: events[j].Data?
    ensures forall j | 0 <= j < |events| :: !Ends(events[j])
  {
  }

  /** One text-only snapshot after a scan that has emitted no thinking. */
  lemma TextStep(events: seq<UpstreamEvent>, last: string, text: string, pushed: seq<Record>)
    requires Scan(events) == Relayed(Trackers("", last), pushed)
    ensures var a := Advance(last, text);
      Scan(events + [TextSnapshot(text)]) == Relayed(Trackers("", a.last), pushed + ChunkRecords("response", a.chunk))
  {
    ScanSnoc(events, TextSnapshot(text));
    DecodeTextSnapshot(text);
  }

  /** A `completed` status before any data event closes the stream with `done` alone. */
  lemma CompletedAtOnce(message: Option<string>)
    ensures Relay([Status("completed", message)]) == [DoneRecord]
  {
    CompletedCloses([], message, []);
    assert [] + [Status("completed", message)] + [] == [Status("completed", message)];
  }

  // ---------------------------------------------------------------- the corrected ending

  /** The ending the relay evidently intends: an upstream error is the only closing record. */
  function ClosingFixed(job: seq<UpstreamEvent>, k: nat): seq<Record>
    requires k <= |job| && (k < |job| ==> Ends(job[k]))
  {
    if k < |job| && job[k].Status? && job[k].status == "error" then [ErrorRecord(job[k].message)]
    else Closing(job, k)
  }

  function RelayFixed(job: seq<UpstreamEvent>): seq<Record> {
    var k := StopAt(job);
    Scan(job[..k]).pushed + ClosingFixed(job, k)
  }

  /** With the corrected ending every stream holds exactly one closing record, its last. */
  lemma FixedClosesOnce(job: seq<UpstreamEvent>)
    ensures var rs := RelayFixed(job);
      && |rs| >= 1 && Closes(rs[|rs| - 1])
      && forall i | 0 <= i < |rs| - 1 :: !Closes(rs[i])
  {
    ScanPushesChunks(job[..StopAt(job)]);
  }

  /** With the corrected ending an upstream error is followed by nothing: the error record closes the stream. */
  lemma FixedErrorStops(pre: seq<UpstreamEvent>, message: Option<string>, post: seq<UpstreamEvent>)
    requires forall j | 0 <= j < |pre| :: !Ends(pre[j])
    ensures RelayFixed(pre + [Status("error", message)] + post) == Scan(pre).pushed + [ErrorRecord(message)]
  {
    var job := pre + [Status("error", message)] + post;
    StopAtPrefix(pre, Status("error", message), post);
    assert job[|pre|] == Status("error", message);
    assert ClosingFixed(job, |pre|) == [ErrorRecord(message)];
  }

  /** As written, a job holding one upstream error yields two closing records. */
  lemma ErrorClosesTwice(message: Option<string>)
    ensures Relay([Status("error", message)]) == [ErrorRecord(message), ForcedDoneRecord]
    ensures Closes(ErrorRecord(message)) && Closes(ForcedDoneRecord)
  {
    ErrorThenForcedDone([], message, []);
    assert [] + [Status("error", message)] + [] == [Status("error", message)];
  }

  // ---------------------------------------------------------------- history prefix

  /** The history is empty for an empty context; otherwise the header, then one line pair per exchange. */
  lemma HistoryShape(context: seq<(string, string)>, p: (string, string))
    ensures History([]) == ""
    ensures History([p]) == HistoryHeader + PairLine(p)
    ensures context != [] ==> History(context + [p]) == History(context) + "\n" + PairLine(p)
  {
    assert PairLines([p]) == [PairLine(p)] by {
      assert [p][..0] == [];
    }
    if context != [] {
      var all := context + [p];
      assert PairLines(all) == PairLines(context) + [PairLine(p)] by {
        assert all[..|all| - 1] == context;
      }
      JoinSnoc(PairLines(context), PairLine(p));
      AppendAssoc(HistoryHeader, Join(PairLines(context), "\n"), "\n");
      AppendAssoc(HistoryHeader, Join(PairLines(context), "\n") + "\n", PairLine(p));
    }
  }

  /**
   * What a POST answers: a 400 exactly for a missing message; otherwise a stream whose system
   * prompt is the caller's prompt, extended by the history header exactly when there is a
   * context, and whose records end in a closing record.
   */
  lemma PostAnswers(message: string, sysPrompt: string, context: seq<(string, string)>, job: seq<UpstreamEvent>)
    ensures Post(message, sysPrompt, context, job).BadRequest? <==> message == ""
    ensures var r := Post(message, sysPrompt, context, job);
      r.EventStream? ==>
        && sysPrompt <= r.systemPrompt
        && (r.systemPrompt == sysPrompt <==> context == [])
        && (context != [] ==> sysPrompt + HistoryHeader <= r.systemPrompt)
        && |r.records| >= 1 && Closes(r.records[|r.records| - 1])
  {
    ClosingLast(job);
    var r := Post(message, sysPrompt, context, job);
    if r.EventStream? && context != [] {
      var rest := Join(PairLines(context), "\n");
      assert r.systemPrompt == sysPrompt + HistoryHeader + rest by {
        AppendAssoc(sysPrompt, HistoryHeader, rest);
      }
      assert |r.systemPrompt| > |sysPrompt|;
    }
  }

  lemma {:induction false} JoinSnoc(parts: seq<string>, x: string)
    requires |parts| >= 1
    ensures Join(parts + [x], "\n") == Join(parts, "\n") + "\n" + x
  {
    if |parts| > 1 {
      assert (parts + [x])[1..] == parts[1..] + [x];
      JoinSnoc(parts[1..], x);
    }
  }
}
