/** The frontend's HTTP client (frontend/src/api/client.ts): the error
    raised for a response that is not ok, and `streamPost`, which reads a
    `text/event-stream` body chunk by chunk, cuts it into frames at each
    blank line ("\n\n"), and hands the JSON payload of every `data: ` frame
    to `onMessage`. This is the subset of the server-sent-events format of
    the WHATWG HTML Living Standard, section 9.2, that the client reads.

    The network is abstracted: a response is its `ok` flag, status text,
    what `response.json()` yields (`None` when it rejects), whether it has a
    body, and the body's text as decoded chunk by chunk; `parse` stands for
    `JSON.parse` (`None` when it throws). The sequence of values passed to
    `onMessage` is returned as `delivered`. */
module ApiClient {
  import opened Wrappers
  import opened Text
  import opened Json
  import opened JsonDump
  import MatchService
  import Seqs

  const Separator := "\n\n"
  const DataPrefix := "data: "
  const DoneMarker := "[DONE]"

  /** What a request throws: the client's own `Error`, or a runtime error
      (a `TypeError` reading `.detail` of a `null` error body, a
      `SyntaxError` from a body that is not JSON). */
  datatype Failure = ApiError(message: string) | RuntimeError

  /** The error thrown when `response.ok` is false. A body that does not
      parse counts as `{}`; the message is a truthy "detail", else the
      status text after "API Error: ". */
  function ErrorOf(errorBody: Option<Json>, statusText: string): (f: Failure)
    ensures f.RuntimeError? <==> errorBody == Some(Null)
    ensures f.ApiError? && errorBody.Some? && !JsTruthy(Member(errorBody.value, "detail")) ==> f.message == "API Error: " + statusText
    ensures errorBody.None? ==> f == ApiError("API Error: " + statusText)
    ensures f.ApiError? && errorBody.Some? && Member(errorBody.value, "detail").Str? && Member(errorBody.value, "detail").s != ""
            ==> f.message == Member(errorBody.value, "detail").s
    ensures errorBody.Some? && !errorBody.value.Null? && JsTruthy(Member(errorBody.value, "detail"))
            ==> f == ApiError(JsString(Member(errorBody.value, "detail")))
  {
    var data := if errorBody.None? then Obj([]) else errorBody.value;
    if data.Null? then RuntimeError
    else
      var detail := Member(data, "detail");
      ApiError(if JsTruthy(detail) then JsString(detail) else "API Error: " + statusText)
  }

  /** A validation error's "detail" is a list of objects: the message is
      what `String` makes of it. */
  lemma ListDetailMessage(statusText: string)
    ensures ErrorOf(Some(Obj([("detail", Arr([Obj([])]))])), statusText) == ApiError("[object Object]")
  {
  }

  /** `post`: the parsed body of an ok response, the error otherwise. */
  function Post(ok: bool, statusText: string, body: Option<Json>): (r: Result<Json, Failure>)
    ensures r.Ok? <==> ok && body.Some?
    ensures r.Ok? ==> r.value == body.value
    ensures !ok ==> r == Err(ErrorOf(body, statusText))
  {
    if !ok then Err(ErrorOf(body, statusText))
    else if body.None? then Err(RuntimeError)
    else Ok(body.value)
  }

  // ---------------------------------------------------------------------
  // Frames and payloads
  // ---------------------------------------------------------------------

  /** What one complete frame passes to `onMessage`: only a frame starting
      with "data: " counts; the rest of it, trimmed, is skipped when empty
      or "[DONE]", and otherwise parsed, a malformed payload being skipped
      silently. */
  function PayloadOf(frame: string, parse: string -> Option<Json>): Option<Json> {
    if !StartsWith(frame, DataPrefix) then None
    else
      var payload := JsTrim(frame[|DataPrefix|..]);
      if payload == "" || payload == DoneMarker then None else parse(payload)
  }

  /** The values passed to `onMessage` for a sequence of complete frames, in
      order. */
  function Payloads(frames: seq<string>, parse: string -> Option<Json>): seq<Json> {
    if frames == [] then []
    else FrameDelivery(frames[0], parse) + Payloads(frames[1..], parse)
  }

  /** What one frame hands `onMessage`: its payload, if it has one. */
  function FrameDelivery(frame: string, parse: string -> Option<Json>): seq<Json> {
    match PayloadOf(frame, parse) case Some(v) => [v] case None => []
  }

  /** One more frame adds its payload, if it has one. */
  lemma PayloadsSnoc(frames: seq<string>, k: nat, parse: string -> Option<Json>)
    requires k < |frames|
    ensures Payloads(frames[..k + 1], parse)
            == Payloads(frames[..k], parse) + FrameDelivery(frames[k], parse)
  {
    PayloadsAppend(frames[..k], [frames[k]], parse);
    assert frames[..k + 1] == frames[..k] + [frames[k]];
    assert [frames[k]][1..] == [];
  }

  lemma {:induction false} PayloadsAppend(a: seq<string>, b: seq<string>, parse: string -> Option<Json>)
    ensures Payloads(a + b, parse) == Payloads(a, parse) + Payloads(b, parse)
  {
    if a != [] {
      var ab := a + b;
      Seqs.TailOfAppend(a, b);
      assert Payloads(ab, parse) == FrameDelivery(a[0], parse) + Payloads(a[1..] + b, parse);
      assert Payloads(a, parse) == FrameDelivery(a[0], parse) + Payloads(a[1..], parse);
      PayloadsAppend(a[1..], b, parse);
    } else {
      assert a + b == b;
    }
  }

  /** Only frames starting with "data: " count, and the blank payload and
      the "[DONE]" marker are skipped without a call. */
  lemma SkippedFrames(frame: string, pad: string, parse: string -> Option<Json>)
    requires forall k :: 0 <= k < |pad| ==> IsJsSpace(pad[k])
    ensures !StartsWith(frame, DataPrefix) ==> PayloadOf(frame, parse).None?
    ensures PayloadOf(DataPrefix + pad, parse).None?
    ensures PayloadOf(DataPrefix + DoneMarker, parse).None?
  {
    assert (DataPrefix + pad)[|DataPrefix|..] == pad;
    assert (DataPrefix + DoneMarker)[|DataPrefix|..] == DoneMarker;
    StripKeepsUnpadded(DoneMarker, IsJsSpace);
  }

  /** Each frame calls `onMessage` at most once. */
  lemma {:induction false} PayloadsAtMostOnePerFrame(frames: seq<string>, parse: string -> Option<Json>)
    ensures |Payloads(frames, parse)| <= |frames|
  {
    if frames != [] {
      PayloadsAtMostOnePerFrame(frames[1..], parse);
    }
  }

  /** The complete frames of a text: every piece but the last. */
  function CompleteFrames(text: string): seq<string> {
    var pieces := Split(text, Separator);
    pieces[..|pieces| - 1]
  }

  /** The text after the last blank line, which is held back. */
  function Held(text: string): string {
    var pieces := Split(text, Separator);
    pieces[|pieces| - 1]
  }

  /** What `onMessage` receives over a whole body. */
  function Delivered(text: string, parse: string -> Option<Json>): seq<Json> {
    Payloads(CompleteFrames(text), parse)
  }

  /** `streamPost` from the response on. An error response throws before the
      body is read; a response without a body returns without a call. For a
      body, the values delivered are those of the complete frames of the
      whole decoded text, however it was cut into chunks, and what is left
      in the buffer at the end (no blank line after it) is never
      delivered. */
  method StreamPost(ok: bool, statusText: string, errorBody: Option<Json>, hasBody: bool,
                    chunks: seq<string>, parse: string -> Option<Json>)
    returns (failure: Option<Failure>, delivered: seq<Json>, buffer: string)
    ensures !ok ==> failure == Some(ErrorOf(errorBody, statusText)) && delivered == []
    ensures ok ==> failure.None?
    ensures ok && !hasBody ==> delivered == []
    ensures ok && hasBody ==> delivered == Delivered(Concat(chunks), parse) && buffer == Held(Concat(chunks))
  {
    buffer := "";
    delivered := [];
    if !ok {
      return Some(ErrorOf(errorBody, statusText)), [], buffer;
    }
    failure := None;
    if !hasBody {
      return;
    }
    ghost var processed: seq<string> := [];
    assert Concat(chunks[..0]) == "";
    for j := 0 to |chunks|
      invariant processed + [buffer] == Split(Concat(chunks[..j]), Separator)
      invariant delivered == Payloads(processed, parse)
    {
      BufferStep(processed, buffer, chunks, j);
      buffer := buffer + chunks[j];
      var lines := Split(buffer, Separator);
      var frames := lines[..|lines| - 1];
      buffer := lines[|lines| - 1];
      InitThenLast(processed, lines);
      var received := HandleFrames(frames, parse);
      PayloadsAppend(processed, frames, parse);
      delivered := delivered + received;
      processed := processed + frames;
    }
    assert chunks[..|chunks|] == chunks;
  }

  /** One chunk read: the buffer grows by the chunk and is split again; the
      pieces before the last are the next complete frames of the whole
      text. */
  lemma BufferStep(processed: seq<string>, buffer: string, chunks: seq<string>, j: nat)
    requires j < |chunks|
    requires processed + [buffer] == Split(Concat(chunks[..j]), Separator)
    ensures var lines := Split(buffer + chunks[j], Separator);
            processed + lines == Split(Concat(chunks[..j + 1]), Separator)
  {
    assert chunks[..j + 1] == chunks[..j] + [chunks[j]];
    ConcatSnoc(chunks[..j], chunks[j]);
    SnocParts(processed, buffer, Split(Concat(chunks[..j]), Separator));
    SplitAppend(Concat(chunks[..j]), chunks[j], Separator);
  }

  lemma SnocParts<T>(init: seq<T>, last: T, s: seq<T>)
    requires s == init + [last]
    ensures s[..|s| - 1] == init && s[|s| - 1] == last
  {
  }

  lemma InitThenLast<T>(processed: seq<T>, lines: seq<T>)
    requires |lines| >= 1
    ensures processed + lines[..|lines| - 1] + [lines[|lines| - 1]] == processed + lines
  {
    assert lines[..|lines| - 1] + [lines[|lines| - 1]] == lines;
  }

  /** The loop over the complete frames of one read. */
  method HandleFrames(frames: seq<string>, parse: string -> Option<Json>) returns (received: seq<Json>)
    ensures received == Payloads(frames, parse)
  {
    received := [];
    for k := 0 to |frames|
      invariant received == Payloads(frames[..k], parse)
    {
      PayloadsSnoc(frames, k, parse);
      var line := frames[k];
      if StartsWith(line, DataPrefix) {
        var payload := JsTrim(line[|DataPrefix|..]);
        if payload != "" && payload != DoneMarker {
          var data := parse(payload);
          if data.Some? {
            received := received + [data.value];
          }
        }
      }
    }
    assert frames[..|frames|] == frames;
  }

  // ---------------------------------------------------------------------
  // Properties of the splitting
  // ---------------------------------------------------------------------

  /** The held-back buffer never contains a blank line. */
  lemma HeldHasNoSeparator(text: string)
    ensures forall j :: !OccursAt(Held(text), Separator, j)
  {
    SplitPiecesAreFree(text, Separator);
  }

  /** No text is lost: the complete frames rejoined with "\n\n", followed by
      the buffer, give the whole decoded text. */
  lemma NoTextLost(text: string)
    ensures Join(CompleteFrames(text) + [Held(text)], Separator) == text
  {
    var pieces := Split(text, Separator);
    SplitJoin(text, Separator);
    assert CompleteFrames(text) + [Held(text)] == pieces;
  }

  /** Text that has not yet been followed by a blank line delivers nothing
      until more arrives: the deliveries of a prefix are a prefix of the
      deliveries of the whole. */
  lemma DeliveriesGrow(s: string, t: string, parse: string -> Option<Json>)
    ensures Delivered(s + t, parse) == Delivered(s, parse) + Delivered(Held(s) + t, parse)
  {
    CompleteFramesGrow(s, t);
    PayloadsAppend(CompleteFrames(s), CompleteFrames(Held(s) + t), parse);
  }

  /** The complete frames of a longer text: those of the start, then those
      the held text completes with what follows. */
  lemma CompleteFramesGrow(s: string, t: string)
    ensures CompleteFrames(s + t) == CompleteFrames(s) + CompleteFrames(Held(s) + t)
  {
    var pieces, later := Split(s, Separator), Split(Held(s) + t, Separator);
    SplitAppend(s, t, Separator);
    Seqs.DropLastOfAppend(pieces[..|pieces| - 1], later);
  }

  // ---------------------------------------------------------------------
  // The service's stream as the client reads it
  // ---------------------------------------------------------------------

  function EventJsons(events: seq<MatchService.Event>): (r: seq<Json>)
    ensures |r| == |events| && forall k :: 0 <= k < |events| ==> r[k] == MatchService.EventJson(events[k])
  {
    seq(|events|, k requires 0 <= k < |events| => MatchService.EventJson(events[k]))
  }

  /** A frame the service writes delivers exactly its event. */
  lemma FramePayload(e: MatchService.Event, parse: string -> Option<Json>)
    requires forall j :: parse(Dumps(j)) == Some(j)
    ensures PayloadOf(DataPrefix + Dumps(MatchService.EventJson(e)), parse) == Some(MatchService.EventJson(e))
  {
    var p := Dumps(MatchService.EventJson(e));
    var frame := DataPrefix + p;
    assert frame[..|DataPrefix|] == DataPrefix;
    assert frame[|DataPrefix|..] == p;
    assert p[0] == '{' && p[|p| - 1] == '}';
    StripKeepsUnpadded(p, IsJsSpace);
    assert p != DoneMarker by {
      assert DoneMarker[0] == '[';
    }
  }

  /** The text of a non-empty event sequence: its first frame's line, the
      blank line, then the text of the rest. */
  lemma FramesCons(events: seq<MatchService.Event>)
    requires events != []
    ensures var x := DataPrefix + Dumps(MatchService.EventJson(events[0]));
            '\n' !in x && Concat(MatchService.Frames(events)) == x + Separator + Concat(MatchService.Frames(events[1..]))
  {
    var x := DataPrefix + Dumps(MatchService.EventJson(events[0]));
    MatchService.FramesCons(events);
    assert MatchService.Frame(events[0]) == x + Separator;
    DumpsHasNoLineBreak(MatchService.EventJson(events[0]));
    assert '\n' !in DataPrefix;
  }

  /** A first frame without line breaks delivers its payload ahead of the
      rest. */
  lemma DeliveredCons(x: string, tail: string, parse: string -> Option<Json>)
    requires '\n' !in x
    ensures Delivered(x + Separator + tail, parse)
            == FrameDelivery(x, parse) + Delivered(tail, parse)
  {
    SplitAtFirst(x, tail);
    var later := Split(tail, Separator);
    assert CompleteFrames(x + Separator + tail) == [x] + later[..|later| - 1];
    PayloadsAppend([x], later[..|later| - 1], parse);
  }

  /** End to end: whatever the chunking, the client hands `onMessage` the
      dictionaries the service serialised, one per event and in order,
      provided `JSON.parse` reads back what `json.dumps` wrote. */
  lemma {:induction false} ClientReceivesEvents(events: seq<MatchService.Event>, parse: string -> Option<Json>)
    requires forall j :: parse(Dumps(j)) == Some(j)
    ensures Delivered(Concat(MatchService.Frames(events)), parse) == EventJsons(events)
  {
    if events == [] {
      assert Concat(MatchService.Frames(events)) == "";
      assert Split("", Separator) == [""];
    } else {
      var e := events[0];
      var rest := events[1..];
      var x := DataPrefix + Dumps(MatchService.EventJson(e));
      var tail := Concat(MatchService.Frames(rest));
      FramesCons(events);
      DeliveredCons(x, tail, parse);
      FramePayload(e, parse);
      ClientReceivesEvents(rest, parse);
      EventJsonsCons(events);
    }
  }

  lemma EventJsonsCons(events: seq<MatchService.Event>)
    requires events != []
    ensures EventJsons(events) == [MatchService.EventJson(events[0])] + EventJsons(events[1..])
  {
  }
}
