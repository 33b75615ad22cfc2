/**
 * The `window.fetch` proxy of the injected page script: it forwards the call,
 * lets through every response whose content type is not a stream without a
 * trace, and for a stream response announces the request and reads a copy of
 * the body in the background, posting one capture per interpreted event and a
 * single completion or failure capture at the end.
 *
 * The page's fetch outcome, the body's already-decoded text chunks and the
 * clock are parameters; posting a capture is appending it to the returned
 * sequence.
 */
module FetchProxy {
  import opened Wrappers
  import opened JsString
  import opened Captures
  import opened SseParser

  // ---------------------------------------------------------------------------
  // Content-type gate
  // ---------------------------------------------------------------------------

  /** The markers whose presence, in any letter case, makes a response a stream. */
  const StreamMarkers: seq<string> := ["event-stream", "x-ndjson", "stream+json"]

  /** The lower-cased content type contains one of the three stream markers. */
  predicate IsStreamContentType(contentType: string) {
    var lower := ToLowerCase(contentType);
    Includes(lower, "event-stream") || Includes(lower, "x-ndjson") || Includes(lower, "stream+json")
  }

  /** The header value, or the empty string when the header is absent. */
  function ContentTypeOf(header: Option<string>): string {
    header.GetOr("")
  }

  /** The gate holds exactly when one of the markers occurs somewhere in the lower-cased value. */
  lemma StreamGateIff(contentType: string)
    ensures IsStreamContentType(contentType) <==>
      exists m, i :: m in StreamMarkers && OccursAt(ToLowerCase(contentType), m, i)
  {
    var lower := ToLowerCase(contentType);
    IncludesIffOccurs(lower, "event-stream");
    IncludesIffOccurs(lower, "x-ndjson");
    IncludesIffOccurs(lower, "stream+json");
    if IsStreamContentType(contentType) {
      var m :| m in StreamMarkers && Includes(lower, m);
      var i :| OccursAt(lower, m, i);
    }
  }

  /** Text without capitals is its own lower-cased form. */
  lemma NoCapitalsUnchanged(s: string)
    requires forall i :: 0 <= i < |s| ==> !('A' <= s[i] <= 'Z')
    ensures ToLowerCase(s) == s
  {
    assert forall i :: 0 <= i < |s| ==> ToLowerCase(s)[i] == LowerChar(s[i]) == s[i];
  }

  lemma LowerCaseIdempotent(s: string)
    ensures ToLowerCase(ToLowerCase(s)) == ToLowerCase(s)
  {
    NoCapitalsUnchanged(ToLowerCase(s));
  }

  /** The gate ignores letter case: a value and its lower-cased form are classified alike. */
  lemma GateIgnoresCase(contentType: string)
    ensures IsStreamContentType(ToLowerCase(contentType)) == IsStreamContentType(contentType)
  {
    LowerCaseIdempotent(contentType);
  }

  /** A missing content-type header never makes a response a stream. */
  lemma MissingHeaderIsNoStream()
    ensures !IsStreamContentType(ContentTypeOf(None))
  {
    assert ToLowerCase("") == "";
  }

  // ---------------------------------------------------------------------------
  // The read loop
  // ---------------------------------------------------------------------------

  /** How the background read of the body ends: `done`, or a rejected read. */
  datatype StreamEnd = Completed | Failed(reason: string)

  /** A response body: its decoded text chunks in order, then how reading ends. */
  datatype Body = Body(chunks: seq<string>, end: StreamEnd)

  /** One `es-message` capture per event, in order. */
  function EventCaptures(id: string, evs: seq<Event>, now: int): (cs: seq<Capture>)
    ensures |cs| == |evs|
    ensures forall i :: 0 <= i < |evs| ==> cs[i] == EsMessage(id, evs[i].eventType, evs[i].data, now)
  {
    seq(|evs|, i requires 0 <= i < |evs| => EsMessage(id, evs[i].eventType, evs[i].data, now))
  }

  lemma EventCapturesAppend(id: string, a: seq<Event>, b: seq<Event>, now: int)
    ensures EventCaptures(id, a + b, now) == EventCaptures(id, a, now) + EventCaptures(id, b, now)
  {
  }

  /** The capture that closes a read: `fetch-done`, or `fetch-error` with the reason. */
  function EndCapture(id: string, end: StreamEnd, now: int): Capture {
    match end
    case Completed => FetchDone(id, now)
    case Failed(reason) => FetchError(id, reason)
  }

  /** Everything the background read posts: the events of the complete records, then the end. */
  function BodyCaptures(id: string, body: Body, now: int): seq<Capture> {
    EventCaptures(id, Events(Feed("", Concat(body.chunks)).records), now) + [EndCapture(id, body.end, now)]
  }

  /** The capture a record's optional event adds: one `es-message`, or none. */
  function CaptureOf(id: string, ev: Option<Event>, now: int): seq<Capture> {
    match ev
    case Some(e) => [EsMessage(id, e.eventType, e.data, now)]
    case None => []
  }

  /** One more record adds the capture of its own event, after those before it. */
  lemma EventCapturesStep(id: string, records: seq<string>, j: nat, now: int)
    requires j < |records|
    ensures EventCaptures(id, Events(records[..j + 1]), now) ==
      EventCaptures(id, Events(records[..j]), now) + CaptureOf(id, RecordEvent(records[j]), now)
  {
    assert records[..j + 1][..j] == records[..j];
    EventCapturesAppend(id, Events(records[..j]), EventsOfRecord(records[j]), now);
  }

  /** The `forEach` over the complete records: the captures of their events, in order. */
  method ParseRecords(id: string, records: seq<string>, now: int) returns (captures: seq<Capture>)
    ensures captures == EventCaptures(id, Events(records), now)
  {
    captures := [];
    var j := 0;
    while j < |records|
      invariant 0 <= j <= |records|
      invariant captures == EventCaptures(id, Events(records[..j]), now)
    {
      var ev := ParseRecord(records[j]);
      EventCapturesStep(id, records, j, now);
      if ev.Some? {
        captures := captures + [EsMessage(id, ev.value.eventType, ev.value.data, now)];
      }
      j := j + 1;
    }
    assert records[..j] == records;
  }

  /** One pass of the loop continues the fold of the chunks read so far. */
  lemma ReadStep(chunks: seq<string>, k: nat)
    requires k < |chunks|
    ensures var before := FeedAll("", chunks[..k]);
      var parts := Split(before.residual + chunks[k], RecordSeparator);
      FeedAll("", chunks[..k + 1]) == Fed(before.records + parts[..|parts| - 1], parts[|parts| - 1])
  {
    assert chunks[..k + 1][..k] == chunks[..k];
  }

  /** The captures of the records read so far, extended by those of one more batch. */
  lemma CapturesStep(id: string, before: seq<string>, records: seq<string>, now: int)
    ensures EventCaptures(id, Events(before + records), now) ==
      EventCaptures(id, Events(before), now) + EventCaptures(id, Events(records), now)
  {
    EventsAppend(before, records);
    EventCapturesAppend(id, Events(before), Events(records), now);
  }

  /** After the last chunk the fold is the single feed of the whole body text. */
  lemma ReadAll(chunks: seq<string>)
    ensures FeedAll("", chunks[..|chunks|]) == Feed("", Concat(chunks))
  {
    assert chunks[..|chunks|] == chunks;
    FreeOfFirstChar("", RecordSeparator);
    ChunkingIndependence("", chunks);
  }

  /**
   * The detached read loop: append each chunk to the buffer, split on blank
   * lines, keep the last part, interpret the others; at the end post one
   * `fetch-done` (or one `fetch-error`) and drop whatever is still buffered.
   */
  method ReadLoop(id: string, body: Body, now: int) returns (sent: seq<Capture>)
    ensures sent == BodyCaptures(id, body, now)
  {
    var chunks := body.chunks;
    var buffer := "";
    sent := [];
    var k := 0;
    while k < |chunks|
      invariant 0 <= k <= |chunks|
      invariant FeedAll("", chunks[..k]).residual == buffer
      invariant sent == EventCaptures(id, Events(FeedAll("", chunks[..k]).records), now)
    {
      ReadStep(chunks, k);
      buffer := buffer + chunks[k];
      var parts := Split(buffer, RecordSeparator);
      buffer := parts[|parts| - 1];
      var records := parts[..|parts| - 1];
      CapturesStep(id, FeedAll("", chunks[..k]).records, records, now);
      var captures := ParseRecords(id, records, now);
      sent := sent + captures;
      k := k + 1;
    }
    ReadAll(chunks);
    sent := sent + [EndCapture(id, body.end, now)];
  }

  /** The read posts exactly one end capture, and it comes last; every capture before it is an event. */
  lemma OneEndCaptureLast(id: string, body: Body, now: int)
    ensures var cs := BodyCaptures(id, body, now);
      && cs[|cs| - 1].kind in {"fetch-done", "fetch-error"}
      && forall i :: 0 <= i < |cs| - 1 ==> cs[i].kind == "es-message"
  {
  }

  /**
   * How the chunking of the body does not matter: two bodies whose chunks
   * concatenate to the same text post the same captures.
   */
  lemma ChunkingDoesNotMatter(id: string, b1: Body, b2: Body, now: int)
    requires Concat(b1.chunks) == Concat(b2.chunks) && b1.end == b2.end
    ensures BodyCaptures(id, b1, now) == BodyCaptures(id, b2, now)
  {
  }

  /**
   * Text after the last record separator is never posted: a final chunk that,
   * with whatever the body so far left pending, holds no blank line adds no capture.
   */
  lemma UnterminatedTailDropped(id: string, chunks: seq<string>, tail: string, end: StreamEnd, now: int)
    requires Free(Feed("", Concat(chunks)).residual + tail, RecordSeparator)
    ensures BodyCaptures(id, Body(chunks + [tail], end), now) == BodyCaptures(id, Body(chunks, end), now)
  {
    var text := Concat(chunks);
    var pending := Feed("", text).residual;
    assert (chunks + [tail])[..|chunks|] == chunks;
    assert Concat(chunks + [tail]) == text + tail;
    FeedCompose("", text, tail);
    SplitFree(pending + tail, RecordSeparator);
    assert Feed(pending, tail).records == [];
    assert Feed("", text).records + [] == Feed("", text).records;
  }

  // ---------------------------------------------------------------------------
  // The proxy
  // ---------------------------------------------------------------------------

  /** The first argument of `fetch`: a URL string, or a `Request` with its own URL and method. */
  datatype Resource = UrlString(url: string) | RequestObject(url: string, requestMethod: string)

  /** The response as far as the proxy looks at it. */
  datatype Response = Response(contentType: Option<string>, body: Option<Body>)

  /** What the native `fetch` does: resolve with a response or reject with an error. */
  datatype Outcome = Resolved(response: Response) | Rejected(error: string)

  /** The URL reported in `fetch-start`. */
  function UrlOf(resource: Resource): string {
    resource.url
  }

  /**
   * The method reported in `fetch-start`: the options' method when it is a
   * non-empty string, else the request's own method, else "GET".
   */
  function RequestMethod(resource: Resource, optionsMethod: Option<string>): (m: string)
    ensures optionsMethod.Some? && optionsMethod.value != "" ==> m == optionsMethod.value
    ensures (optionsMethod.None? || optionsMethod.value == "") && resource.UrlString? ==> m == "GET"
    ensures (optionsMethod.None? || optionsMethod.value == "") && resource.RequestObject? ==> m == resource.requestMethod
  {
    if optionsMethod.Some? && optionsMethod.value != "" then optionsMethod.value
    else match resource
      case RequestObject(_, rm) => rm
      case UrlString(_) => "GET"
  }

  /** What a stream response makes the proxy post: `fetch-start`, then what the read posts. */
  function StreamCaptures(id: string, resource: Resource, optionsMethod: Option<string>, body: Option<Body>, now: int): seq<Capture> {
    var start := FetchStart(id, UrlOf(resource), RequestMethod(resource, optionsMethod), now);
    match body
    case None => [start]
    case Some(b) => [start] + BodyCaptures(id, b, now)
  }

  /** Everything the proxy posts for one call, including what its detached read posts later. */
  function ProxyCaptures(id: string, resource: Resource, optionsMethod: Option<string>, outcome: Outcome, now: int): seq<Capture> {
    match outcome
    case Rejected(_) => []
    case Resolved(response) =>
      if IsStreamContentType(ContentTypeOf(response.contentType))
      then StreamCaptures(id, resource, optionsMethod, response.body, now)
      else []
  }

  /**
   * `window.fetch` as the proxy replaces it: the caller always gets the native
   * outcome back (a rejection is re-thrown); captures are posted only for a
   * stream response.
   */
  method Fetch(id: string, resource: Resource, optionsMethod: Option<string>, outcome: Outcome, now: int)
    returns (result: Outcome, sent: seq<Capture>)
    ensures result == outcome
    ensures sent == ProxyCaptures(id, resource, optionsMethod, outcome, now)
  {
    result := outcome;
    sent := [];
    if outcome.Rejected? {
      return;
    }
    var response := outcome.response;
    var contentType := ContentTypeOf(response.contentType);
    if !IsStreamContentType(contentType) {
      return;
    }
    sent := ObserveStream(id, resource, optionsMethod, response.body, now);
  }

  /**
   * The part of the proxy past the gate: post `fetch-start`, and when the
   * response has a body, run the read loop on its copy.
   */
  method ObserveStream(id: string, resource: Resource, optionsMethod: Option<string>, body: Option<Body>, now: int)
    returns (sent: seq<Capture>)
    ensures sent == StreamCaptures(id, resource, optionsMethod, body, now)
  {
    var url := UrlOf(resource);
    var httpMethod := RequestMethod(resource, optionsMethod);
    sent := [FetchStart(id, url, httpMethod, now)];
    if body.None? {
      return;
    }
    var captures := ReadLoop(id, body.value, now);
    sent := sent + captures;
  }

  /** A response that is not a stream is handed back and nothing is posted. */
  lemma NonStreamIsInvisible(id: string, resource: Resource, optionsMethod: Option<string>, response: Response, now: int)
    requires !IsStreamContentType(ContentTypeOf(response.contentType))
    ensures ProxyCaptures(id, resource, optionsMethod, Resolved(response), now) == []
  {
  }

  /** A stream response is announced first with its URL and method, and at most one end capture follows. */
  lemma StreamIsAnnounced(id: string, resource: Resource, optionsMethod: Option<string>, response: Response, now: int)
    requires IsStreamContentType(ContentTypeOf(response.contentType))
    ensures var cs := ProxyCaptures(id, resource, optionsMethod, Resolved(response), now);
      && cs[0] == FetchStart(id, resource.url, RequestMethod(resource, optionsMethod), now)
      && (response.body.None? <==> |cs| == 1)
  {
  }

  /** "application/json" is already in lower case. */
  lemma JsonLowered()
    ensures ToLowerCase("application/json") == "application/json"
  {
    var s := "application/json";
    assert forall i :: 0 <= i < |s| ==> !('A' <= s[i] <= 'Z');
    NoCapitalsUnchanged(s);
  }

  /** "application/json" has no `e`, so no "event-stream". */
  lemma JsonHasNoEventStream()
    ensures !Includes("application/json", "event-stream")
  {
    var s := "application/json";
    assert 'e' !in s;
    FreeOfAbsentChar(s, "event-stream");
  }

  /** "application/json" has no `x`, so no "x-ndjson". */
  lemma JsonHasNoNdjson()
    ensures !Includes("application/json", "x-ndjson")
  {
    var s := "application/json";
    assert 'x' !in s;
    FreeOfAbsentChar(s, "x-ndjson");
  }

  /** The only `s` of "application/json" is too far right to start "stream+json". */
  lemma JsonHasNoStreamJson()
    ensures !Includes("application/json", "stream+json")
  {
    var s := "application/json";
    assert forall i :: 0 <= i <= 5 ==> s[i] != 's';
    FreeOfFirstChar(s, "stream+json");
  }

  /** A JSON response produces no capture at all. */
  lemma JsonResponseUntouched(id: string, resource: Resource, optionsMethod: Option<string>, body: Option<Body>, now: int)
    ensures ProxyCaptures(id, resource, optionsMethod, Resolved(Response(Some("application/json"), body)), now) == []
  {
    JsonLowered();
    JsonHasNoEventStream();
    JsonHasNoNdjson();
    JsonHasNoStreamJson();
  }
}
