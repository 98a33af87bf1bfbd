/**
 * A concrete `JSON.parse` for the bodies the relay writes. It shows that the one assumption
 * the end-to-end theorems make of the parser, `Pipeline.ParsesBack`, can be met.
 */
module PayloadReader {
  import opened Wrappers
  import opened Sequences
  import opened JsonText
  import R = ChatRoute
  import C = ChatConsumer
  import P = Pipeline

  /**
   * A `JSON.parse` for the three object texts the route writes, followed by the hook's reads of
   * `data.chunk` and `data.message`; any other text is refused.
   */
  function ReadPayload(t: string): Option<C.Payload> {
    if ChunkOpen <= t then
      match ReadLiteral(t[|ChunkOpen|..])
      case Some((c, rest)) => if rest == "}" then Some(C.Payload(Some(c), None)) else None
      case None => None
    else if MessageOpen <= t then
      match ReadLiteral(t[|MessageOpen|..])
      case Some((m, rest)) =>
        if rest == "}" then Some(C.Payload(None, Some(m)))
        else if DetailsOpen <= rest then
          match ReadLiteral(rest[|DetailsOpen|..])
          case Some((_, tail)) => if tail == "}" then Some(C.Payload(None, Some(m))) else None
          case None => None
        else None
      case None => None
    else None
  }

  const ChunkOpen: string := "{\"chunk\":\""
  const MessageOpen: string := "{\"message\":\""
  const DetailsOpen: string := ",\"details\":\""

  /** After an opening text, a written literal reads back as its string and what follows it. */
  lemma OpenLiteral(key: string, s: string, rest: string)
    ensures var t := key + Quote(s) + rest;
      key + "\"" <= t && ReadLiteral(t[|key + "\""|..]) == Some((s, rest))
  {
    var t := key + Quote(s) + rest;
    assert t == (key + "\"") + (Escape(s) + "\"" + rest) by {
      AppendAssoc(key, "\"" + Escape(s), "\"");
      AppendAssoc(key, "\"", Escape(s));
      AppendAssoc(key + "\"", Escape(s), "\"");
      AppendAssoc(key + "\"" + Escape(s) + "\"", "", rest);
      AppendAssoc(key + "\"", Escape(s) + "\"", rest);
    }
    assert t[|key + "\""|..] == Escape(s) + "\"" + rest;
    ReadEscape(s, rest);
  }

  /** A text that opens with the `message` key does not open with the `chunk` key. */
  lemma MessageNotChunk(t: string)
    requires MessageOpen <= t
    ensures !(ChunkOpen <= t)
  {
    assert t[2] == 'm';
  }

  /** The reader gives back what the hook reads of each payload the route writes. */
  lemma ReadsBack(p: R.Payload)
    ensures ReadPayload(R.Stringify(p)) == Some(P.Reading(p))
  {
    var t := R.Stringify(p);
    match p
    case ChunkData(c) =>
      OpenLiteral("{\"chunk\":", c, "}");
      assert "{\"chunk\":" + "\"" == ChunkOpen;
    case MessageData(m) =>
      OpenLiteral("{\"message\":", m, "}");
      assert "{\"message\":" + "\"" == MessageOpen;
      MessageNotChunk(t);
    case FailureData(m, None) =>
      OpenLiteral("{\"message\":", m, "}");
      assert "{\"message\":" + "\"" == MessageOpen;
      MessageNotChunk(t);
    case FailureData(m, Some(d)) =>
      ReadsBackDetails(m, d);
  }

  /** The failure payload with its `details` field: the reader skips the field. */
  lemma ReadsBackDetails(m: string, d: string)
    ensures ReadPayload(R.Stringify(R.FailureData(m, Some(d)))) == Some(C.Payload(None, Some(m)))
  {
    var t := R.Stringify(R.FailureData(m, Some(d)));
    var rest := ",\"details\":" + Quote(d) + "}";
    assert t == "{\"message\":" + Quote(m) + rest by {
      AppendAssoc("{\"message\":" + Quote(m), ",\"details\":" + Quote(d), "}");
      AppendAssoc("{\"message\":" + Quote(m), ",\"details\":", Quote(d));
    }
    OpenLiteral("{\"message\":", m, rest);
    assert "{\"message\":" + "\"" == MessageOpen;
    MessageNotChunk(t);
    assert rest != "}" by { assert |rest| > 1; }
    OpenLiteral(",\"details\":", d, "}");
    assert ",\"details\":" + "\"" == DetailsOpen;
    assert rest == ",\"details\":" + Quote(d) + "}";
  }

  /** `ParsesBack` is met, so the end-to-end theorems of `Pipeline` are not about an impossible parser. */
  lemma ReadPayloadParsesBack()
    ensures P.ParsesBack(ReadPayload)
  {
    forall p: R.Payload
      ensures ReadPayload(R.Stringify(p)) == Some(P.Reading(p))
    {
      ReadsBack(p);
    }
  }
}
