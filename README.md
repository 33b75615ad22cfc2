# event-stream-pro, modelled in Dafny

A Dafny model of the sequential logic of the event-stream-pro browser
extension. The extension captures Server-Sent-Event and streaming-fetch
traffic from a page and shows it in a DevTools panel.

The model covers five parts of the extension:

- **The injected page script** (`extension/injected-script.js`).
  - The `window.fetch` proxy lets a response through untouched unless its content type names a stream. For a stream, it announces the request and reads a copy of the body chunk by chunk. An incremental parser cuts that text on blank lines into records and turns each record into at most one event (module `SseParser` in `sse_parser.dfy`, module `FetchProxy` in `fetch_proxy.dfy`).
  - The `window.EventSource` proxy wraps every page listener in a forwarding adapter. It keeps a listener → channel → adapter map so that re-adding and removing work on the same adapter (module `EventSourceProxy` in `eventsource_proxy.dfy`).
  - The id generator fills the version-4 UUID template (module `Uuid` in `uuid.dfy`).
- **The background service** (`extension/background.js`). Its tab → panel-port registry records ports on `init`, forgets one on disconnect, and routes every capture to its tab's panel (module `Registry` in `registry.dfy`).
- **The panel's message hook** (`panel/src/hooks/useMessageProcessor.js`). A reducer folds captures into a request list and a per-stream payload map (module `MessageProcessor` in `message_processor.dfy`).
- **The panel's decoder** (`panel/src/utils/decoder.js`). One left-to-right pass rewrites `\uXXXX` escapes, and the same rewrite is applied to every string of a parsed JSON tree (module `Decoder` in `decoder.dfy`).

The model also has two support modules:

- `JsString` in `js_string.dfy` covers the JavaScript string built-ins the code relies on:
  - `split` on a literal separator, `join`, `indexOf`, `includes`, `startsWith`;
  - `trim` and `trimEnd` with the ECMAScript white-space set;
  - `toLowerCase`.
- `Captures` in `captures.dfy` defines the capture messages that travel from the page to the panel. `Wrappers` provides `Option`.

The record parser follows a simplified subset of "Interpreting an event stream", section 9.2.6 of the WHATWG HTML Living Standard, exactly as the code implements it:

- only "\n\n" separates records and only "\n" separates lines;
- every line is right-trimmed and the `event:` value is fully trimmed;
- `id:`, `retry:` and comment lines are ignored;
- the residual is never flushed at the end of the stream.

Several things are inputs to the model rather than computed by it:

- The clock (`Date.now`) is a `now` parameter.
- The random nibbles of the id generator are an input sequence.
- The body of a fetch response is a sequence of already-decoded text chunks plus how the read ended.
- What `JSON.parse` returned is an `Option` of a JSON datatype.

Every posted message is appended to an output sequence: `window.postMessage` becomes the returned sequence in the fetch proxy, the field `sent` in the EventSource proxy, and the field `posted` in the registry.

Where the code works step by step, the model does too:

- the read loop and the per-record line scan are `while` loops proved against specification functions;
- the listener map, the registry and the hook's state cells are class fields updated by methods.

## Model

| member | source | states |
|---|---|---|
| JsString.IndexOfSpec | extension/injected-script.js:226 | the separator search finds an occurrence with none to its left, and fails only when the text has no occurrence at all |
| JsString.Split | extension/injected-script.js:226-227 | splitting always yields at least one piece, so the `pop` that takes the residual always has one |
| JsString.SplitRejoins | extension/injected-script.js:226 | joining the pieces with the separator gives the split text back |
| JsString.SplitPiecesFree | extension/injected-script.js:226 | no piece contains the separator |
| JsString.SplitFrame | extension/injected-script.js:226 | text made of clean pieces, each followed by the separator, splits back into exactly those pieces followed by the pieces of the remainder |
| JsString.SplitAppend | extension/injected-script.js:223-226 | splitting `s + t` keeps every complete piece of `s` and continues from the last, possibly partial, piece of `s` followed by `t` |
| JsString.SplitAround | extension/injected-script.js:230 | with a one-character separator, splitting `p + sep + q` gives the pieces of `p` followed by the pieces of `q` |
| JsString.SplitJoin | extension/injected-script.js:230-249 | with a one-character separator, splitting a join gives the parts back |
| JsString.IncludesIffOccurs | extension/injected-script.js:186-188 | `includes` holds exactly when the substring occurs at some index |
| JsString.TrimEndSpec | extension/injected-script.js:235 | `trimEnd` keeps a prefix, removes only white space, and stops at a character that is not white space |
| JsString.TrimStartSpec | extension/injected-script.js:237 | `trimStart` keeps a suffix, removes only white space, and stops at a character that is not white space |
| JsString.TrimSpec | extension/injected-script.js:237 | `trim` keeps a contiguous part of the text that neither starts nor ends with white space, and removes only white space |
| JsString.TrimSkipsLeadingSpace | extension/injected-script.js:237 | trimming discards any white-space prefix before a trimmed value |
| JsString.ToLowerCase | extension/injected-script.js:186-188 | lower-casing keeps the length and maps each character on its own, leaving no ASCII capital |
| SseParser.Feed | extension/injected-script.js:222-227 | the buffer plus the chunk is split on blank lines; every part but the last is a complete record, and the last is kept as the new buffer |
| SseParser.FeedAll | extension/injected-script.js:215-227 | the records and buffer after the chunks are fed one by one, in order |
| SseParser.FeedKeepsText | extension/injected-script.js:222-227 | no text is lost: the records, each followed by "\n\n", then the new residual, give back the old buffer plus the chunk |
| SseParser.FeedCutsAtEverySeparator | extension/injected-script.js:226-227 | neither the residual nor any record contains "\n\n" |
| SseParser.FeedCompose | extension/injected-script.js:222-227 | feeding `x + y` at once equals feeding `x`, then feeding `y` onto the residual, with the records concatenated |
| SseParser.ChunkingIndependence | extension/injected-script.js:215-229 | feeding chunks one at a time yields the same ordered records and final residual as feeding their concatenation once |
| SseParser.OneCharacterAtATime | extension/injected-script.js:215-229 | delivering the text one character per chunk gives the same records and residual as delivering it whole |
| SseParser.ClassifyLine | extension/injected-script.js:234-242 | a right-trimmed line that starts with `event:` sets the trimmed rest as type; otherwise one that starts with `data:` contributes the rest less one leading space; any other line is ignored |
| SseParser.EventTypeOf | extension/injected-script.js:231-237 | the type starts as "message" and each `event:` line overwrites it, in order |
| SseParser.DataOf | extension/injected-script.js:232-241 | the contributions of the `data:` lines, in order |
| SseParser.RecordEvent | extension/injected-script.js:229-252 | a record gives an event with its type and its data parts joined by "\n", or none when it has no data and the type is "message" |
| SseParser.Events | extension/injected-script.js:229-253 | the events of the records, in order, with dropped records left out |
| SseParser.LastEventLineWins | extension/injected-script.js:236-237 | the event type is the value of the last `event:` line |
| SseParser.NoEventLineMeansDefault | extension/injected-script.js:231 | without an `event:` line the type stays "message" |
| SseParser.EventTypeOfAppend | extension/injected-script.js:236-237 | lines after the last `event:` line do not change the type |
| SseParser.DataOfAppend | extension/injected-script.js:238-241 | data contributions are collected in encounter order |
| SseParser.NoDataIffNoDataLine | extension/injected-script.js:238-245 | there are no data parts exactly when no line is a `data:` line |
| SseParser.EmitRule | extension/injected-script.js:245 | a record is dropped exactly when it has no `data:` line and its type is "message" |
| SseParser.SingleLineRecord | extension/injected-script.js:229-252 | a one-line record yields exactly what that line says: its type, its data, or nothing |
| SseParser.CommentDropped | extension/injected-script.js:234-245 | a record made of one comment line is dropped |
| SseParser.LoneDataLine | extension/injected-script.js:238-245 | a lone `data:` line is a "message" event with empty data |
| SseParser.EventLineOf | extension/injected-script.js:235-237 | an `event:` line with one space before a trimmed type yields that type |
| SseParser.DataLineOf | extension/injected-script.js:235-241 | a `data:` line with one space before a value not ending in white space contributes that value, with the leading space removed once |
| SseParser.DataLinesJoined | extension/injected-script.js:238-249 | a record of `data:` lines only is a "message" event whose data are the values joined by "\n" in order |
| SseParser.RecordRoundTrip | extension/injected-script.js:229-252 | a well-formed event written as a record reads back as itself |
| SseParser.StreamRoundTrip | extension/injected-script.js:222-252 | feeding a written stream cuts exactly the written records, leaves an empty residual and reads back the events |
| SseParser.EventsRoundTrip | extension/injected-script.js:229-252 | the written records of well-formed events read back as those events, in order |
| SseParser.TwoChunkScenario | extension/injected-script.js:215-252 | the chunks "event: foo\ndata: 1\n\n" and "data: 2\n\ndata: 3" give the events foo/"1" and message/"2" and keep "data: 3" buffered |
| SseParser.ParseRecord | extension/injected-script.js:229-253 | the line-scanning loop of one record computes the event of the record specification, or none |
| FetchProxy.IsStreamContentType | extension/injected-script.js:186-188 | the lower-cased content type includes "event-stream", "x-ndjson" or "stream+json" |
| FetchProxy.ContentTypeOf | extension/injected-script.js:181 | a missing header reads as the empty string |
| FetchProxy.StreamGateIff | extension/injected-script.js:186-188 | the gate holds exactly when "event-stream", "x-ndjson" or "stream+json" occurs somewhere in the lower-cased content type |
| FetchProxy.GateIgnoresCase | extension/injected-script.js:186-188 | a content type and its lower-cased form are classified alike |
| FetchProxy.LowerCaseIdempotent | extension/injected-script.js:186-188 | lower-casing twice is lower-casing once |
| FetchProxy.MissingHeaderIsNoStream | extension/injected-script.js:181 | a missing content-type header reads as "" and never makes a stream |
| FetchProxy.JsonResponseUntouched | extension/injected-script.js:181-191 | an "application/json" response produces no capture at all |
| FetchProxy.BodyCaptures | extension/injected-script.js:213-258 | what the detached read posts: one `es-message` per event of the complete records of the whole body text, then `fetch-done` or `fetch-error` |
| FetchProxy.EventCaptures | extension/injected-script.js:245-252 | one `es-message` capture per event, in order, with that event's type and data |
| FetchProxy.ParseRecords | extension/injected-script.js:229-253 | the loop over the complete records posts the captures of their events, in record order |
| FetchProxy.ReadLoop | extension/injected-script.js:213-258 | the read loop posts the events of every complete record of the whole body text, then exactly one end capture |
| FetchProxy.OneEndCaptureLast | extension/injected-script.js:216-257 | a read posts exactly one `fetch-done` or `fetch-error` capture, and it comes last after event captures only |
| FetchProxy.ChunkingDoesNotMatter | extension/injected-script.js:215-229 | two bodies whose chunks concatenate to the same text and end alike post the same captures |
| FetchProxy.UnterminatedTailDropped | extension/injected-script.js:216-227 | a final chunk that, together with the text still pending before it, holds no blank line is never interpreted: it adds no capture |
| FetchProxy.RequestMethod | extension/injected-script.js:170 | the reported method is the options' method when it is a non-empty string, else the request's own, else "GET" |
| FetchProxy.StreamCaptures | extension/injected-script.js:193-258 | a stream response posts `fetch-start`, then, when there is a body, what the read posts |
| FetchProxy.ProxyCaptures | extension/injected-script.js:163-264 | a rejected fetch and a response that is not a stream post nothing; a stream response posts its stream captures |
| FetchProxy.Fetch | extension/injected-script.js:163-264 | the caller always gets the native outcome back; captures are posted only for a stream response |
| FetchProxy.ObserveStream | extension/injected-script.js:193-258 | a stream response posts `fetch-start` and, when it has a body, what the read of its copy posts |
| FetchProxy.NonStreamIsInvisible | extension/injected-script.js:186-191 | a response that is not a stream posts nothing |
| FetchProxy.StreamIsAnnounced | extension/injected-script.js:193-206 | a stream response is announced first, with its URL and method; a response without a body posts nothing more |
| EventSourceProxy.Lookup | extension/injected-script.js:129-130 | the adapter stored for a listener and channel, if any |
| EventSourceProxy.Track | extension/injected-script.js:91-123 | the listener gets an inner map if it has none, and the adapter is stored under the channel |
| EventSourceProxy.Untrack | extension/injected-script.js:134-135 | the channel is deleted from the listener's inner map, and the inner map is deleted once empty |
| EventSourceProxy.TrackLookup | extension/injected-script.js:91-123 | storing an adapter makes it the one found for its pair and changes no other pair |
| EventSourceProxy.UntrackLookup | extension/injected-script.js:134-135 | deleting a pair makes it untracked and changes no other pair |
| EventSourceProxy.TrackSame | extension/injected-script.js:98-101 | storing the adapter a pair already has changes nothing |
| EventSourceProxy.TrackKeepsMap | extension/injected-script.js:91-123 | storing a matching adapter keeps every inner map non-empty and every adapter under its own pair |
| EventSourceProxy.UntrackKeepsMap | extension/injected-script.js:134-135 | deleting a pair keeps every inner map non-empty and every adapter under its own pair |
| EventSourceProxy.TrackThenUntrack | extension/injected-script.js:91-135 | adding an untracked pair and removing it gives the map back exactly, dropping an inner map created for it |
| EventSourceProxy.AddNative | extension/injected-script.js:124 | the native add appends a registration unless the same channel and handler are already registered |
| EventSourceProxy.RemoveNative | extension/injected-script.js:133 | the native remove drops the registration and keeps the others in order |
| EventSourceProxy.AddNativeHolds | extension/injected-script.js:99-124 | the native add holds exactly the old registrations and the new one, and never holds one twice |
| EventSourceProxy.RemoveNativeHolds | extension/injected-script.js:133-138 | the native remove holds exactly the old registrations other than the removed one, and never holds one twice |
| EventSourceProxy.AddThenRemoveNative | extension/injected-script.js:124-133 | adding a new registration and removing it again gives the native list back |
| EventSourceProxy.AddKeepsInv | extension/injected-script.js:103-124 | a new pair's adapter is stored and registered while the spy stays, tracked and registered adapters stay in step, and no registration is held twice |
| EventSourceProxy.RemoveKeepsInv | extension/injected-script.js:128-135 | removing a tracked pair unregisters exactly its adapter and keeps the same invariant |
| EventSourceProxy.AddStep | extension/injected-script.js:89-125 | both paths of `addEventListener` keep the invariant and leave the adapter tracked for the pair; a repeat changes nothing |
| EventSourceProxy.RemoveStep | extension/injected-script.js:128-140 | both paths of `removeEventListener` keep the invariant and leave the pair untracked; an untracked pair changes nothing |
| EventSourceProxy.RepeatAddChangesNothing | extension/injected-script.js:98-101 | re-adding a tracked pair hands the native list the adapter it already holds |
| EventSourceProxy.UntrackedRemoveChangesNothing | extension/injected-script.js:136-139 | removing an untracked listener passes it through, and the native list holds no such entry |
| EventSourceProxy.OneAdapterPerPair | extension/injected-script.js:97-101 | at most one adapter per listener and channel is ever registered |
| EventSourceProxy.InvWellRegistered | extension/injected-script.js:79-124 | under the invariant the spy is only on "message", adapters only on their own channel, and no page listener is registered directly |
| EventSourceProxy.Fire | extension/injected-script.js:79-121 | the spy posts a "message" capture; an adapter posts under its channel unless that is "message" and then reaches its listener; a page listener is only reached |
| EventSourceProxy.Dispatch | extension/injected-script.js:79-121 | every registration on the event's channel fires, in registration order |
| EventSourceProxy.DispatchAppend | extension/injected-script.js:79-125 | dispatch over two lists is dispatch over the first, then the second |
| EventSourceProxy.DeliveredIff | extension/injected-script.js:115-120 | a listener is reached exactly when an adapter for it, or the listener itself, is registered on the channel |
| EventSourceProxy.NoSpyNoMessageCapture | extension/injected-script.js:106 | without the spy a "message" event posts nothing: adapters on "message" stay silent |
| EventSourceProxy.MessagePostedOnce | extension/injected-script.js:79-106 | a "message" event is posted exactly once, by the spy, however many page listeners it reaches |
| EventSourceProxy.NamedPostedPerListener | extension/injected-script.js:103-113 | any other event is posted once per listener it reaches, under its channel name, and not at all when nobody listens |
| EventSourceProxy.ReachesTrackedListeners | extension/injected-script.js:72-140 | under the invariant, the listeners an event reaches are exactly those tracked for its channel |
| EventSourceProxy.ErrorSlotAsWritten | extension/injected-script.js:143-144 | as written, the `onerror` slot holds the logger with an empty kept handler until the page assigns its own handler |
| EventSourceProxy.FireErrorAsWritten | extension/injected-script.js:144-146 | as written, the logger posts `es-error` and calls the kept handler; a page handler in the slot is called instead |
| EventSourceProxy.FireError | extension/injected-script.js:143-147 | corrected, an error posts `es-error` and then calls the page's handler |
| EventSourceProxy.PageOnErrorHidesErrors | extension/injected-script.js:143-147 | as written, once the page assigns `onerror`, an error is no longer posted |
| EventSourceProxy.OriginalHandlerNeverCalled | extension/injected-script.js:143-146 | as written, the handler kept at construction is never a page handler |
| EventSourceProxy.ErrorsAlwaysPosted | extension/injected-script.js:143-147 | corrected, every error posts `es-error` and reaches the handler the page assigned, unlike the code as written |
| EventSourceProxy.ProxiedEventSource.constructor | extension/injected-script.js:59-86 | a new instance posts `es-connect`, tracks nothing and holds the spy on "message" |
| EventSourceProxy.ProxiedEventSource.AddEventListener | extension/injected-script.js:89-125 | a tracked pair re-adds its stored adapter, a new pair gets a fresh adapter that is stored and added; the invariant is kept |
| EventSourceProxy.ProxiedEventSource.RemoveEventListener | extension/injected-script.js:128-140 | a tracked pair's adapter is removed and forgotten; an untracked listener is passed through, leaving map and list unchanged |
| EventSourceProxy.ProxiedEventSource.CallNativeAdd | extension/injected-script.js:99-124 | one native add call is logged and the registration is added unless already held |
| EventSourceProxy.ProxiedEventSource.CallNativeRemove | extension/injected-script.js:133-138 | one native remove call is logged and the registration is dropped |
| EventSourceProxy.ProxiedEventSource.AddThenRemove | extension/injected-script.js:89-140 | adding a new pair and removing it again leaves the map and the native list as they were |
| EventSourceProxy.ProxiedEventSource.DispatchEvent | extension/injected-script.js:79-121 | an event posts what its native dispatch posts and reaches the listeners it reaches; nothing else changes |
| EventSourceProxy.ProxiedEventSource.SetOnError | extension/injected-script.js:144 | the page's assignment of `onerror` is recorded and nothing else changes |
| EventSourceProxy.ProxiedEventSource.OnError | extension/injected-script.js:143-147 | corrected, an error posts `es-error` and then calls the page's handler, if any |
| Uuid.VariantNibble | extension/injected-script.js:23 | the variant nibble is between 8 and 11 and keeps the two low bits of the random nibble |
| Uuid.HexChar | extension/injected-script.js:24 | a nibble is written as its own lower-case hex digit, `0`-`9` then `a`-`f` |
| Uuid.Fill | extension/injected-script.js:22-25 | each `x` and `y` of the template is replaced, left to right, by the next nibble |
| Uuid.FillShape | extension/injected-script.js:22-25 | filling keeps every template character except `x` and `y`; the slot at each position takes the nibble numbered by the slots before it, an `x` as its hex digit and a `y` as the digit of its variant nibble, one of 8, 9, a, b |
| Uuid.TemplateSlots | extension/injected-script.js:22 | the template has 31 slots to fill |
| Uuid.GenerateUuid | extension/injected-script.js:21-26 | a generated id is 36 characters long |
| Uuid.UuidShape | extension/injected-script.js:21-26 | hyphens at 8, 13, 18 and 23, the version digit 4 at 14, a variant digit in 89ab at 19, lower-case hex elsewhere |
| Uuid.UuidDigits | extension/injected-script.js:21-26 | every digit of a generated id is the digit of its own nibble, drawn in template order; the variant digit is made from the 16th nibble |
| Registry.Least | extension/background.js:31-33 | the least tab id of a non-empty set is in the set and below every other |
| Registry.AscendingKeys | extension/background.js:31 | the key listing has one entry per key, each of them a key |
| Registry.AscendingKeysSpec | extension/background.js:31 | `Object.keys` of integer keys lists every key once, in strictly ascending order |
| Registry.TabsOf | extension/background.js:31-33 | the tabs whose recorded port is the closing port |
| Registry.Unregistered | extension/background.js:31-37 | every entry whose port is not the closing one survives with its port |
| Registry.UnregisterForgetsOne | extension/background.js:31-37 | closing a recorded port forgets exactly one tab, the lowest recorded for it; closing an unrecorded port changes nothing |
| Registry.Route | extension/background.js:44-53 | a capture is posted at most once, and exactly when the sender is a tab that is registered, to that tab's port |
| Registry.StaleCloseKeepsNewPort | extension/background.js:8-47 | a tab announced again on a new port keeps receiving captures after the old port closes |
| Registry.Background.constructor | extension/background.js:2 | the registry starts empty with nothing posted |
| Registry.Background.OnPanelMessage | extension/background.js:8-23 | `init` records the port for its tab, overwriting any earlier one; any other message changes nothing |
| Registry.Background.OnDisconnect | extension/background.js:28-38 | the scan in key order forgets the first tab recorded for the closing port, which is the lowest one |
| Registry.Background.OnRuntimeMessage | extension/background.js:42-54 | a relayed capture is posted to its tab's port or dropped; the registry is unchanged |
| Registry.FirstInOrderIsLeast | extension/background.js:31-35 | the first tab in key order that records the port is the lowest such tab |
| Registry.NoneInOrderMeansNone | extension/background.js:31-37 | a scan that finds no tab for the port means none is recorded |
| MessageProcessor.NewRequest | panel/src/hooks/useMessageProcessor.js:13-18 | the new row copies id, url and startTime; its method is the capture's method when truthy, else "SSE" |
| MessageProcessor.Payload | panel/src/hooks/useMessageProcessor.js:24-26 | a `fetch-chunk` payload moves `chunk` into `data` and is typed "stream", keeping its other fields; any other payload is stored as received |
| MessageProcessor.WithRequest | panel/src/hooks/useMessageProcessor.js:11-19 | the request list is kept when a row has the id, else the new row is appended |
| MessageProcessor.WithMessage | panel/src/hooks/useMessageProcessor.js:28-31 | the payload is appended to its stream's list, which starts empty when absent |
| MessageProcessor.Reduce | panel/src/hooks/useMessageProcessor.js:7-33 | a stream opening adds its row and resets its list; a message appends its payload; anything else changes nothing |
| MessageProcessor.ReduceAll | panel/src/hooks/useMessageProcessor.js:7-33 | the captures are handled one after another, in arrival order |
| MessageProcessor.StartStep | panel/src/hooks/useMessageProcessor.js:10-20 | a stream opening appends a row only when no row has its id, and resets that stream's payload list to empty in both cases |
| MessageProcessor.MessageStep | panel/src/hooks/useMessageProcessor.js:22-31 | a message appends exactly one payload to the end of its stream's list, creating the list if absent; other lists and the rows are unchanged |
| MessageProcessor.OtherStep | panel/src/hooks/useMessageProcessor.js:7-33 | any other capture type changes nothing |
| MessageProcessor.RequestsOnlyGrow | panel/src/hooks/useMessageProcessor.js:11-19 | the row list only grows at its end, by at most one row |
| MessageProcessor.ReduceKeepsConsistent | panel/src/hooks/useMessageProcessor.js:7-33 | each step keeps row ids unique and a payload list present for every row |
| MessageProcessor.ReduceAllConsistent | panel/src/hooks/useMessageProcessor.js:7-33 | any capture history keeps row ids unique and a payload list for every row |
| MessageProcessor.ReopenKeepsRowResetsMessages | panel/src/hooks/useMessageProcessor.js:12-20 | a stream opened twice keeps its first row, but its payload list restarts empty |
| MessageProcessor.Hook.constructor | panel/src/hooks/useMessageProcessor.js:4-5 | the hook starts with no rows and no payloads |
| MessageProcessor.Hook.HandleMessage | panel/src/hooks/useMessageProcessor.js:7-33 | the state cells become the reducer's result and stay consistent |
| MessageProcessor.Hook.OnNavigated | panel/src/hooks/useMessageProcessor.js:52-55 | navigation empties both state cells |
| MessageProcessor.Hook.ClearData | panel/src/hooks/useMessageProcessor.js:80-83 | clearing empties both state cells |
| Decoder.HexValue | panel/src/utils/decoder.js:18 | a hex digit's value is below 16 |
| Decoder.HexValueIff | panel/src/utils/decoder.js:17-18 | a digit is worth `v` exactly when it is the digit of `v`, in upper case or, for 10 to 15, in lower case |
| Decoder.DecodeUnicode | panel/src/utils/decoder.js:8 | empty text is returned as it is |
| Decoder.Replace | panel/src/utils/decoder.js:17-19 | an escape at the front becomes the code unit it names and scanning resumes after it; any other unit is copied |
| Decoder.DecodeLength | panel/src/utils/decoder.js:17-19 | the output is five units shorter per escape replaced |
| Decoder.NoEscapeUnchanged | panel/src/utils/decoder.js:17-19 | text with no escape is returned unchanged |
| Decoder.EscapeAllRoundTrip | panel/src/utils/decoder.js:17-19 | every unit written as its escape decodes back to itself, one escape per unit |
| Decoder.NestedDecodesOnce | panel/src/utils/decoder.js:17-19 | produced text is not rescanned: one pass turns `\u005cu0041` into `\u0041`, not into `A` |
| Decoder.NotIdempotent | panel/src/utils/decoder.js:17-19 | a second pass turns that result into `A`, so decoding is not idempotent |
| Decoder.EitherCase | panel/src/utils/decoder.js:17 | the `u` and the hex digits match in either case: `\U00e9` and `\u00E9` both decode to U+00E9 |
| Decoder.SafeJsonParseAndDecode | panel/src/utils/decoder.js:54-57 | text that does not parse is decoded as text |
| Decoder.Traverse | panel/src/utils/decoder.js:37-51 | strings are decoded, arrays and objects are traversed element by element, other values are kept |
| Decoder.TraverseDecodes | panel/src/utils/decoder.js:37-51 | every string at any depth is decoded; constructors, array lengths, keys and their order, numbers, booleans and null are unchanged |
| Decoder.CleanTreeUnchanged | panel/src/utils/decoder.js:37-51 | a tree without escapes comes back unchanged |
| Decoder.ParsedOrRaw | panel/src/utils/decoder.js:31-58 | a parsed value is decoded as a tree, and unparsable text is decoded as a string |

## Left out

- `window.postMessage` and the content-script relay are not modelled: posting a capture appends it to a sequence.
- `Response.clone`, `getReader` and `TextDecoder` are not modelled: the body is a sequence of already-decoded text chunks that ends in completion or failure. The `fetch-error` reason is an input string.
- Asynchrony is not modelled: the detached read runs to the end inside the call, and the captures the proxy posts include those the read would post later. Interleaving with the page's own use of the response is not modelled.
- `Date.now` is a `now` parameter shared by all captures of one call.
- `Math.random` is replaced by the nibble sequence given to `Uuid.GenerateUuid`. The floating-point draw is not modelled.
- `toString` masking, prototype and static-constant copying, and the install guard are not modelled.
- The listener `options` argument is not modelled: native registrations are compared by channel and handler only.
- How a listener is called is not modelled: the `this` binding, and `handleEvent` objects versus plain functions. A call is recorded as the listener being reached.
- A `null`, `undefined` or non-callable listener is not modelled: every `Listener` is a real object. The page script still stores and registers an adapter for such a value, so its named events are posted although nothing is called.
- A `URL` object passed as the fetch resource is not modelled: a resource is a string or a `Request`. The page script reports such an object itself as the `url`.
- The event object itself is not modelled: an event is its channel and its data text.
- The `url` and `method` reads of a `Request` cannot throw in the model: the `try` around the URL read is not modelled.
- `chrome.scripting.executeScript`, the port wiring, the listener removal on disconnect and the console logging of the background service are not modelled.
- An `init` without a tab id, whose key would be `"undefined"`, is not modelled: tab ids are natural numbers.
- Registry.AscendingKeys: lists keys in ascending numeric order, which is what `Object.keys` does for array-index keys. Other key kinds are not modelled.
- The panel's port wiring and the `onNavigated` registration are not modelled. `OnNavigated` and `ClearData` are the two handlers.
- MessageProcessor.Payload: a `fetch-chunk` without `chunk` drops the `data` field instead of setting it to `undefined`. Both read as `undefined`.
- Capture field values are strings or numbers. Nested objects in capture data are not modelled.
- `JSON.parse` is not modelled: its result is an `Option` of a JSON datatype, and `None` stands for a thrown error.
- JavaScript numbers in JSON trees are modelled as integers.
- Decoder: text is modelled as UTF-16 code units, because `String.fromCharCode` can produce lone surrogates.
- Decoder.Traverse builds a new tree, whereas `traverse` overwrites the properties of the parsed object in place. The object is fresh from `JSON.parse` and shared with nothing, so only the returned value is observable.
- The `catch` in `decodeUnicode` cannot be reached and is not modelled.
- `null` and other non-string inputs to `decodeUnicode` are not modelled: the empty string is the only falsy text.
- JsString.ToLowerCase: lowers ASCII letters only, because no other character lower-cases to a letter of the three stream markers except U+0130 and U+212A, which lower-case to `i` and `k`.
- The UI components (`StreamViewer.jsx`, `DetailsModal.jsx`, `RequestList.jsx`, `App.jsx`), `content-script.js` and `scripts/build.js` are rendering, I/O and build tooling and are not part of this model.

## Findings

| source | as written | input that shows it | evidently intended | confidence | as-written member | corrected member |
|---|---|---|---|---|---|---|
| extension/injected-script.js:143-147 | The error logger is installed as the instance's `onerror` property and keeps the `onerror` read at construction, which on a new instance is always null. A page that later assigns its own `onerror` overwrites the logger. | A page that runs `es.onerror = h` on the proxied instance: afterwards every error calls `h`, and no `es-error` is posted. | Every error posts `es-error` and then calls the handler the page assigned. | not executed | EventSourceProxy.PageOnErrorHidesErrors | EventSourceProxy.ErrorsAlwaysPosted |
