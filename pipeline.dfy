/**
 * The relay's stream read by the chat hook: the text the route enqueues is cut by the hook
 * into exactly the records the route pushed, each read back as one event, so what the hook
 * builds can be stated in terms of the upstream job.
 *
 * `JSON.parse` stays a parameter; `ParsesBack` is the one thing assumed of it, that it gives
 * back the fields `JSON.stringify` wrote; `PayloadReader` gives a reader that meets it.
 */
module Pipeline {
  import opened Wrappers
  import opened JsString
  import opened Sequences
  import R = ChatRoute
  import F = ChatRouteFacts
  import C = ChatConsumer

  /** The fields of a record's JSON body that the hook reads: `data.chunk` and `data.message`. */
  function Reading(p: R.Payload): C.Payload {
    match p
    case ChunkData(c) => C.Payload(Some(c), None)
    case MessageData(m) => C.Payload(None, Some(m))
    case FailureData(m, _) => C.Payload(None, Some(m))
  }

  /** `JSON.parse` inverts `JSON.stringify` on the relay's bodies, as far as the hook reads them. */
  ghost predicate ParsesBack(parse: string -> Option<C.Payload>) {
    forall p :: parse(R.Stringify(p)) == Some(Reading(p))
  }

  /** The event the hook should read for a record. */
  function Hear(r: R.Record): C.SseEvent {
    C.SseEvent(r.event, Reading(r.data))
  }

  /** The events the hook should read for a sequence of records, one per record, in order. */
  function Heard(rs: seq<R.Record>): (evs: seq<C.SseEvent>)
    ensures |evs| == |rs| && forall i | 0 <= i < |rs| :: evs[i] == Hear(rs[i])
  {
    if rs == [] then [] else Heard(rs[..|rs| - 1]) + [Hear(rs[|rs| - 1])]
  }

  /** The record bodies, without their closing blank lines. */
  function Bodies(rs: seq<R.Record>): seq<string> {
    if rs == [] then [] else Bodies(rs[..|rs| - 1]) + [R.Body(rs[|rs| - 1])]
  }

  /** Every record is named by one non-empty line. */
  predicate WellNamed(rs: seq<R.Record>) {
    forall i | 0 <= i < |rs| :: rs[i].event != "" && OneLine(rs[i].event)
  }

  // ---------------------------------------------------------------- the wire text

  /** A body is the `event:` line and the `data:` line joined by one line feed. */
  lemma BodyLines(r: R.Record)
    requires OneLine(r.event)
    ensures var a, b := "event: " + r.event, "data: " + R.Stringify(r.data);
      && R.Body(r) == a + "\n" + b && OneLine(a) && OneLine(b) && b != ""
  {
    var a, b := "event: " + r.event, "data: " + R.Stringify(r.data);
    assert R.Body(r) == a + "\n" + b by {
      assert "\ndata: " == "\n" + "data: ";
      AppendAssoc(a, "\n", "data: ");
      AppendAssoc(a + "\n", "data: ", R.Stringify(r.data));
    }
    OneLineAppend("event: ", r.event);
    R.StringifyOneLine(r.data);
    OneLineAppend("data: ", R.Stringify(r.data));
  }

  /** A body holds no blank line. */
  lemma BodyFree(r: R.Record)
    requires OneLine(r.event)
    ensures Free(R.Body(r), C.RecordSeparator)
  {
    var a, b := "event: " + r.event, "data: " + R.Stringify(r.data);
    BodyLines(r);
    C.TwoLinesNoSeparator(a, b);
    var body := R.Body(r);
    assert IndexOf(body, C.RecordSeparator).None? by {
      assert |Split(body, C.RecordSeparator)| == 1;
    }
    IndexOfFirst(body, C.RecordSeparator);
  }

  /** One frame splits into its body and the empty text after the blank line. */
  lemma FrameSplit(r: R.Record)
    requires OneLine(r.event)
    ensures Split(R.Frame(r), C.RecordSeparator) == [R.Body(r), ""]
  {
    var sep := C.RecordSeparator;
    var body := R.Body(r);
    var s := body + sep;
    var a, b := "event: " + r.event, "data: " + R.Stringify(r.data);
    BodyLines(r);
    BodyFree(r);
    forall j | 0 <= j < |body| ensures !OccursAt(s, sep, j) {
      if j + |sep| <= |body| {
        OccursAtPrefix(body, sep, sep, j);
      } else {
        assert s[j] == b[|b| - 1];
        assert s[j..j + |sep|][0] == s[j];
      }
    }
    assert OccursAt(s, sep, |body|) by {
      assert s[|body|..|body| + |sep|] == sep;
    }
    FirstOccurrence(s, sep, |body|);
    SplitCut(s, sep, |body|);
    assert s[..|body|] == body && s[|body| + |sep|..] == "";
  }

  /** The whole stream splits into the record bodies and an empty trailing piece. */
  lemma {:induction false} WireSplit(rs: seq<R.Record>)
    requires WellNamed(rs)
    ensures Split(R.Wire(rs), C.RecordSeparator) == Bodies(rs) + [""]
  {
    var sep := C.RecordSeparator;
    if rs != [] {
      var init, last := rs[..|rs| - 1], rs[|rs| - 1];
      assert WellNamed(init) by {
        assert forall i | 0 <= i < |init| :: init[i] == rs[i];
      }
      WireSplit(init);
      var p := Bodies(init) + [""];
      assert Split(R.Wire(rs), sep) == Bodies(init) + Split(R.Frame(last), sep) by {
        assert R.Wire(rs) == R.Wire(init) + R.Frame(last);
        SplitAppend(R.Wire(init), R.Frame(last), sep);
        assert p[..|p| - 1] == Bodies(init) && p[|p| - 1] + R.Frame(last) == R.Frame(last);
      }
      FrameSplit(last);
    }
  }

  /** The hook's split finds exactly the pushed records, and nothing is left in its buffer. */
  lemma WireRecords(rs: seq<R.Record>)
    requires WellNamed(rs)
    ensures C.Records(R.Wire(rs)) == Bodies(rs) && C.Pending(R.Wire(rs)) == ""
  {
    WireSplit(rs);
    var p := Bodies(rs) + [""];
    assert p[..|p| - 1] == Bodies(rs);
  }

  /** Each record is read back as one event. */
  lemma BodyHeard(r: R.Record, parse: string -> Option<C.Payload>)
    requires r.event != "" && OneLine(r.event) && ParsesBack(parse)
    ensures C.RecordEvents(R.Body(r), parse) == [Hear(r)]
  {
    var json := R.Stringify(r.data);
    assert parse(json) == Some(Reading(r.data));
    R.StringifyOneLine(r.data);
    C.OneRecordOneEvent(r.event, json, Reading(r.data), parse);
    assert !Blank(R.Body(r)) by {
      assert R.Body(r)[0] == 'e';
    }
  }

  lemma {:induction false} BodiesHeard(rs: seq<R.Record>, parse: string -> Option<C.Payload>)
    requires WellNamed(rs) && ParsesBack(parse)
    ensures C.EventsOf(Bodies(rs), C.Reader(parse)) == Heard(rs)
  {
    if rs != [] {
      var init, last := rs[..|rs| - 1], rs[|rs| - 1];
      assert WellNamed(init) by {
        assert forall i | 0 <= i < |init| :: init[i] == rs[i];
      }
      BodiesHeard(init, parse);
      var bs := Bodies(rs);
      assert bs[..|bs| - 1] == Bodies(init);
      assert C.Reader(parse)(R.Body(last)) == [Hear(last)] by {
        BodyHeard(last, parse);
      }
    }
  }

  /** The events the hook reads from the stream are the records the relay pushed, one for one. */
  lemma WireHeard(rs: seq<R.Record>, parse: string -> Option<C.Payload>)
    requires WellNamed(rs) && ParsesBack(parse)
    ensures C.Events(R.Wire(rs), parse) == Heard(rs) && C.Pending(R.Wire(rs)) == ""
  {
    WireRecords(rs);
    BodiesHeard(rs, parse);
  }

  // ---------------------------------------------------------------- the relay's records

  lemma KnownNames()
    ensures forall name | name in ["thinking", "response", "done", "error"] :: name != "" && OneLine(name)
  {
    assert OneLine("thinking") && OneLine("response") && OneLine("done") && OneLine("error");
  }

  /** The relay only pushes records named `thinking`, `response`, `done` or `error`. */
  lemma RelayWellNamed(job: seq<R.UpstreamEvent>)
    ensures forall i | 0 <= i < |R.Relay(job)| :: R.Relay(job)[i].event in ["thinking", "response", "done", "error"]
    ensures WellNamed(R.Relay(job))
  {
    var rs, k := R.Relay(job), R.StopAt(job);
    var pre := R.Scan(job[..k]).pushed;
    F.ClosingLast(job);
    F.ScanPushesChunks(job[..k]);
    KnownNames();
    forall i | 0 <= i < |rs| ensures rs[i].event != "" && OneLine(rs[i].event) {
      if i < |pre| {
        assert rs[i] == rs[..|pre|][i] == pre[i];
      }
    }
  }

  // ---------------------------------------------------------------- what the hook makes of it

  /**
   * The relay's stream always ends with a complete record, so the read loop as written leaves
   * on it, and it leaves as the loop with the corrected end of stream does.
   */
  lemma RelayNeverSpins(job: seq<R.UpstreamEvent>, start: C.Turn, parse: string -> Option<C.Payload>, ids: C.Ids)
    ensures var text := R.Wire(R.Relay(job));
      && !C.Digest(text, start, parse, ids).Spinning?
      && C.Digest(text, start, parse, ids) == C.DigestFlushed(text, start, parse, ids)
  {
    var text := R.Wire(R.Relay(job));
    assert C.Pending(text) == "" by {
      RelayWellNamed(job);
      WireRecords(R.Relay(job));
    }
    assert Blank(C.Pending(text));
  }

  /** The text the hook accumulates for `name` is the concatenation of the chunks pushed under it. */
  lemma {:induction false} TextHeard(rs: seq<R.Record>, name: string)
    requires forall i | 0 <= i < |rs| :: rs[i].event == name ==> rs[i].data.ChunkData?
    ensures C.Text(Heard(rs), name) == Concat(F.Chunks(rs, name))
  {
    if rs != [] {
      var init, last := rs[..|rs| - 1], rs[|rs| - 1];
      var evs := Heard(rs);
      assert evs[..|evs| - 1] == Heard(init) && evs[|evs| - 1] == Hear(last);
      TextHeard(init, name);
      if last.event == name {
        var c := last.data.chunk;
        assert C.ChunkOf(Hear(last).data) == c;
        ConcatAppend(F.Chunks(init, name), [c]);
        assert Concat([c]) == c by {
          assert [c][..0] == [];
        }
      } else {
        assert C.Text(evs, name) == C.Text(Heard(init), name) + "";
        assert F.Chunks(rs, name) == F.Chunks(init, name) + [];
        assert F.Chunks(init, name) + [] == F.Chunks(init, name);
      }
    }
  }

  /** No record of `rs` is named `name`, so the hook reads no event of that name. */
  lemma {:induction false} NoneHeard(rs: seq<R.Record>, name: string)
    requires forall i | 0 <= i < |rs| :: rs[i].event != name
    ensures !C.Has(Heard(rs), name)
  {
    C.HasSome(Heard(rs), name);
  }

  lemma LoopRecordNames(pre: seq<R.UpstreamEvent>)
    ensures forall i | 0 <= i < |R.Scan(pre).pushed| ::
      && R.Scan(pre).pushed[i].data.ChunkData?
      && R.Scan(pre).pushed[i].event != "done" && R.Scan(pre).pushed[i].event != "error"
  {
    F.ScanPushesChunks(pre);
    F.NotClosingNames();
  }

  /**
   * The hook has left through the exit test with loading over, holding `text` as its
   * accumulated response, the messages it started from kept, and the response message, if one
   * was opened, holding that same text.
   */
  predicate Shows(exit: C.LoopEnd, base: seq<C.ChatMessage>, text: string, ids: C.Ids) {
    && exit.Closed?
    && !exit.turn.isLoading && exit.turn.loading == C.Idle
    && exit.turn.fullResponse == text
    && |base| <= |exit.turn.messages| && exit.turn.messages[..|base|] == base
    && (C.WithId(exit.turn.messages, ids.response) == []
        || C.WithId(exit.turn.messages, ids.response) == [C.ChatMessage(ids.response, C.Assistant, text, C.ResponseMessage)])
  }

  /** On a stream of records none of which is an `error`, the hook closes showing the response chunks. */
  lemma ClosedOutcome(rs: seq<R.Record>, start: C.Turn, parse: string -> Option<C.Payload>, ids: C.Ids)
    requires WellNamed(rs) && forall i | 0 <= i < |rs| :: rs[i].event != "error"
    requires C.Opening(start) && C.FreshIds(start.messages, ids) && ParsesBack(parse)
    ensures Shows(C.Digest(R.Wire(rs), start, parse, ids), start.messages, C.Text(Heard(rs), "response"), ids)
  {
    var text, evs := R.Wire(rs), Heard(rs);
    assert C.Events(text, parse) == evs && C.Pending(text) == "" by {
      WireHeard(rs, parse);
    }
    assert !C.Has(evs, "error") by {
      NoneHeard(rs, "error");
    }
    C.ReducerBuilds(start, evs, ids);
    var t := C.ApplyAll(start, evs, ids).turn;
    assert C.Digest(text, start, parse, ids) == C.Closed(C.Finish(t));
    BuiltShows(start, evs, t, ids);
  }

  /** What `Built` says of the response, after the verse scan and `clearFlags` at the exit. */
  lemma BuiltShows(start: C.Turn, evs: seq<C.SseEvent>, t: C.Turn, ids: C.Ids)
    requires C.Built(start, evs, t, ids)
    ensures Shows(C.Closed(C.Finish(t)), start.messages, C.Text(evs, "response"), ids)
  {
  }

  /** What the loop of a completing job pushes, and the response text it adds up to. */
  lemma CompletedRecords(pre: seq<R.UpstreamEvent>, message: Option<string>, post: seq<R.UpstreamEvent>)
    requires forall j | 0 <= j < |pre| :: !R.Ends(pre[j])
    requires F.Chain(F.Texts(pre, F.Text))
    ensures var rs := R.Relay(pre + [R.Status("completed", message)] + post);
      && WellNamed(rs)
      && (forall i | 0 <= i < |rs| :: rs[i].event != "error")
      && C.Text(Heard(rs), "response") == F.Latest(F.Texts(pre, F.Text))
  {
    var job := pre + [R.Status("completed", message)] + post;
    var pushed := R.Scan(pre).pushed;
    var rs := R.Relay(job);
    assert rs == pushed + [R.DoneRecord] by {
      F.CompletedCloses(pre, message, post);
    }
    RelayWellNamed(job);
    LoopRecordNames(pre);
    forall i | 0 <= i < |rs| ensures rs[i].event != "error" && (rs[i].event == "response" ==> rs[i].data.ChunkData?) {
      if i < |pushed| {
        assert rs[i] == pushed[i];
      } else {
        assert rs[i] == R.DoneRecord;
      }
    }
    TextHeard(rs, "response");
    assert F.Chunks(rs, "response") == F.Chunks(pushed, "response") by {
      F.ChunksAppend(pushed, [R.DoneRecord], "response");
      assert F.Chunks([R.DoneRecord], "response") == [] by {
        assert [R.DoneRecord][..0] == [];
      }
    }
    F.ChainedChunksConcat(pre, F.Text);
  }

  /**
   * A job that completes: when every `text` snapshot extends the previous ones, the hook ends
   * with loading over and shows the latest snapshot as its response.
   */
  lemma CompletedShowsLatest(pre: seq<R.UpstreamEvent>, message: Option<string>, post: seq<R.UpstreamEvent>,
                             start: C.Turn, parse: string -> Option<C.Payload>, ids: C.Ids)
    requires forall j | 0 <= j < |pre| :: !R.Ends(pre[j])
    requires F.Chain(F.Texts(pre, F.Text))
    requires C.Opening(start) && C.FreshIds(start.messages, ids) && ParsesBack(parse)
    ensures Shows(C.Digest(R.Wire(R.Relay(pre + [R.Status("completed", message)] + post)), start, parse, ids),
                  start.messages, F.Latest(F.Texts(pre, F.Text)), ids)
  {
    CompletedRecords(pre, message, post);
    ClosedOutcome(R.Relay(pre + [R.Status("completed", message)] + post), start, parse, ids);
  }

  lemma {:induction false} HeardAppend(a: seq<R.Record>, b: seq<R.Record>)
    ensures Heard(a + b) == Heard(a) + Heard(b)
  {
    assert forall i | 0 <= i < |a + b| :: Heard(a + b)[i] == (Heard(a) + Heard(b))[i];
  }

  lemma WellNamedAppend(a: seq<R.Record>, b: seq<R.Record>)
    requires WellNamed(a) && WellNamed(b)
    ensures WellNamed(a + b)
  {
    assert forall i | |a| <= i < |a + b| :: (a + b)[i] == b[i - |a|];
  }

  lemma ChunksWellNamed(rs: seq<R.Record>)
    requires F.ChunkOnly(rs)
    ensures WellNamed(rs)
  {
    KnownNames();
  }

  /** The `catch` block keeps the messages it is given and appends the apology after them. */
  lemma CaughtShape(base: seq<C.ChatMessage>, u: C.Turn, m: string, ids: C.Ids)
    requires |base| <= |u.messages| && u.messages[..|base|] == base && m != ""
    ensures var t := C.Catch(u, m, ids);
      && t.error == Some(m)
      && |base| < |t.messages| && t.messages[..|base|] == base
      && t.messages[|t.messages| - 1] == C.ChatMessage(ids.failure, C.Assistant, C.Apology, C.ResponseMessage)
      && !t.isLoading && t.loading == C.Idle
  {
    var t := C.Catch(u, m, ids);
    assert t.messages[..|base|] == u.messages[..|base|];
  }

  /** The events the hook reads from the loop's chunk records, an `error` record and any records after it. */
  lemma EventsAfter(pushed: seq<R.Record>, err: R.Record, rest: seq<R.Record>, parse: string -> Option<C.Payload>)
    requires F.ChunkOnly(pushed) && err.event == "error" && WellNamed(rest) && ParsesBack(parse)
    ensures C.Events(R.Wire(pushed + [err] + rest), parse) == Heard(pushed) + [Hear(err)] + Heard(rest)
    ensures !C.Has(Heard(pushed), "error")
  {
    ChunksWellNamed(pushed);
    assert WellNamed([err]);
    WellNamedAppend(pushed, [err]);
    WellNamedAppend(pushed + [err], rest);
    WireHeard(pushed + [err] + rest, parse);
    HeardAppend(pushed + [err], rest);
    HeardAppend(pushed, [err]);
    assert Heard([err]) == [Hear(err)];
    F.ChunksDontClose(pushed);
    NoneHeard(pushed, "error");
  }

  /**
   * The loop's chunk records, then an `error` record, then any records: the hook throws on the
   * error record with its message, after the messages the chunks built.
   */
  lemma FailedAfter(pushed: seq<R.Record>, err: R.Record, rest: seq<R.Record>,
                    start: C.Turn, parse: string -> Option<C.Payload>, ids: C.Ids)
    requires F.ChunkOnly(pushed) && err.event == "error" && WellNamed(rest)
    requires C.Opening(start) && C.FreshIds(start.messages, ids) && ParsesBack(parse)
    ensures var u := C.ApplyAll(start, Heard(pushed), ids);
      && u.Running?
      && C.Digest(R.Wire(pushed + [err] + rest), start, parse, ids)
         == C.Failed(C.Catch(u.turn, C.ErrorText(Reading(err.data)), ids))
      && |start.messages| <= |u.turn.messages| && u.turn.messages[..|start.messages|] == start.messages
  {
    var before, e := Heard(pushed), Hear(err);
    EventsAfter(pushed, err, rest, parse);
    C.ReducerBuilds(start, before, ids);
    var u := C.ApplyAll(start, before, ids).turn;
    assert C.ApplyAll(start, before + [e], ids) == C.Thrown(u, C.ErrorText(e.data)) by {
      C.ApplySnoc(start, before, e, u, ids);
    }
    C.ThrownIsFinal(start, before + [e], Heard(rest), ids);
  }

  /**
   * The hook has left through its `catch` block reporting `m`: the messages it started from
   * are kept, the apology is the last message, and loading is over.
   */
  predicate Reported(exit: C.LoopEnd, base: seq<C.ChatMessage>, m: string, ids: C.Ids) {
    && exit.Failed?
    && exit.turn.error == Some(m)
    && |base| < |exit.turn.messages| && exit.turn.messages[..|base|] == base
    && exit.turn.messages[|exit.turn.messages| - 1] == C.ChatMessage(ids.failure, C.Assistant, C.Apology, C.ResponseMessage)
    && !exit.turn.isLoading && exit.turn.loading == C.Idle
  }

  /** What the hook ends with in the case of `FailedAfter`, when the error record's message is `m`. */
  lemma FailedOutcome(pushed: seq<R.Record>, err: R.Record, rest: seq<R.Record>, m: string,
                      start: C.Turn, parse: string -> Option<C.Payload>, ids: C.Ids)
    requires F.ChunkOnly(pushed) && err.event == "error" && WellNamed(rest)
    requires C.Opening(start) && C.FreshIds(start.messages, ids) && ParsesBack(parse)
    requires C.ErrorText(Reading(err.data)) == m
    ensures Reported(C.Digest(R.Wire(pushed + [err] + rest), start, parse, ids), start.messages, m, ids)
  {
    FailedAfter(pushed, err, rest, start, parse, ids);
    CaughtShape(start.messages, C.ApplyAll(start, Heard(pushed), ids).turn, m, ids);
  }

  /** The records the relay pushes for a job whose upstream reports an error. */
  lemma ErrorRelayed(pre: seq<R.UpstreamEvent>, message: Option<string>, post: seq<R.UpstreamEvent>)
    requires forall j | 0 <= j < |pre| :: !R.Ends(pre[j])
    ensures R.Relay(pre + [R.Status("error", message)] + post)
         == R.Scan(pre).pushed + [R.ErrorRecord(message)] + [R.ForcedDoneRecord]
  {
    F.ErrorThenForcedDone(pre, message, post);
    AppendPair(R.Scan(pre).pushed, R.ErrorRecord(message), R.ForcedDoneRecord);
  }

  /** Once the hook has thrown on an error record, whatever records follow it are never read. */
  lemma AfterErrorUnread(pushed: seq<R.Record>, err: R.Record, rest: seq<R.Record>,
                         start: C.Turn, parse: string -> Option<C.Payload>, ids: C.Ids)
    requires F.ChunkOnly(pushed) && err.event == "error" && WellNamed(rest)
    requires C.Opening(start) && C.FreshIds(start.messages, ids) && ParsesBack(parse)
    ensures C.Digest(R.Wire(pushed + [err] + rest), start, parse, ids)
         == C.Digest(R.Wire(pushed + [err]), start, parse, ids)
  {
    assert WellNamed([]);
    assert pushed + [err] + [] == pushed + [err];
    FailedAfter(pushed, err, rest, start, parse, ids);
    FailedAfter(pushed, err, [], start, parse, ids);
  }

  /**
   * A job whose upstream reports an error: the hook throws on the `error` record with the
   * status message, so the forced `done` the relay pushes after it is never read and the
   * outcome is the one the corrected relay gives.
   */
  lemma UpstreamErrorReported(pre: seq<R.UpstreamEvent>, message: Option<string>, post: seq<R.UpstreamEvent>,
                              start: C.Turn, parse: string -> Option<C.Payload>, ids: C.Ids)
    requires forall j | 0 <= j < |pre| :: !R.Ends(pre[j])
    requires C.Opening(start) && C.FreshIds(start.messages, ids) && ParsesBack(parse)
    ensures var job := pre + [R.Status("error", message)] + post;
      var exit := C.Digest(R.Wire(R.Relay(job)), start, parse, ids);
      && Reported(exit, start.messages, R.StatusMessage(message), ids)
      && exit == C.Digest(R.Wire(F.RelayFixed(job)), start, parse, ids)
  {
    var job := pre + [R.Status("error", message)] + post;
    var pushed, err := R.Scan(pre).pushed, R.ErrorRecord(message);
    assert R.Relay(job) == pushed + [err] + [R.ForcedDoneRecord] by {
      ErrorRelayed(pre, message, post);
    }
    assert F.RelayFixed(job) == pushed + [err] by {
      F.FixedErrorStops(pre, message, post);
    }
    assert F.ChunkOnly(pushed) by {
      F.ScanPushesChunks(pre);
    }
    assert WellNamed([R.ForcedDoneRecord]);
    FailedOutcome(pushed, err, [R.ForcedDoneRecord], R.StatusMessage(message), start, parse, ids);
    AfterErrorUnread(pushed, err, [R.ForcedDoneRecord], start, parse, ids);
  }

  /**
   * A job whose iterator throws: the relay's catch block pushes its error record and the hook
   * reports `Failed to process AI job.` after what it had built.
   */
  lemma JobFailureReported(pre: seq<R.UpstreamEvent>, details: Option<string>, post: seq<R.UpstreamEvent>,
                           start: C.Turn, parse: string -> Option<C.Payload>, ids: C.Ids)
    requires forall j | 0 <= j < |pre| :: !R.Ends(pre[j])
    requires C.Opening(start) && C.FreshIds(start.messages, ids) && ParsesBack(parse)
    ensures Reported(C.Digest(R.Wire(R.Relay(pre + [R.Raise(details)] + post)), start, parse, ids),
                     start.messages, "Failed to process AI job.", ids)
  {
    var job := pre + [R.Raise(details)] + post;
    var pushed := R.Scan(pre).pushed;
    var failure := R.FailureRecord(details);
    assert R.Relay(job) == pushed + [failure] + [] by {
      F.RaiseFails(pre, details, post);
    }
    assert F.ChunkOnly(pushed) by {
      F.ScanPushesChunks(pre);
    }
    assert WellNamed([]);
    FailedOutcome(pushed, failure, [], "Failed to process AI job.", start, parse, ids);
  }
}
