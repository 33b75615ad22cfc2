/**
 * The panel's message reducer: capture events fold into a request list, one
 * row per stream id in arrival order, and a map from stream id to the
 * payloads received for it. `es-connect`/`fetch-start` add the row (once) and
 * reset the stream's payload list; `es-message`/`fetch-chunk` append one
 * payload; every other type is ignored. Navigation and "clear" empty both.
 */
module MessageProcessor {
  import opened Wrappers
  import opened Captures

  /** One row of the request list. An absent `url` or `startTime` reads as `undefined`. */
  datatype Request = Request(id: string, url: Option<Field>, httpMethod: Field, startTime: Option<Field>)

  /** The hook's two state cells. */
  datatype Panel = Panel(requests: seq<Request>, messagesMap: map<string, seq<Data>>)

  const MethodFallback := Str("SSE")

  /** Capture types that open a stream, and capture types that carry one of its messages. */
  predicate IsStart(kind: string) {
    kind == "es-connect" || kind == "fetch-start"
  }

  predicate IsMessage(kind: string) {
    kind == "es-message" || kind == "fetch-chunk"
  }

  /** JavaScript truthiness of a property value: `undefined`, `""` and `0` are falsy. */
  predicate Truthy(value: Option<Field>) {
    match value
    case None => false
    case Some(Str(s)) => s != ""
    case Some(Num(n)) => n != 0
  }

  function Get(data: Data, name: string): Option<Field> {
    if name in data.fields then Some(data.fields[name]) else None
  }

  /** `prev.find(r => r.id === id)` found a row. */
  predicate HasRequest(requests: seq<Request>, id: string) {
    exists i :: 0 <= i < |requests| && requests[i].id == id
  }

  /** The row a stream opening adds: id, url and startTime copied, method defaulting to "SSE". */
  function NewRequest(data: Data): (r: Request)
    ensures r.id == data.id && r.url == Get(data, "url") && r.startTime == Get(data, "startTime")
    ensures Truthy(Get(data, "method")) ==> r.httpMethod == data.fields["method"]
    ensures !Truthy(Get(data, "method")) ==> r.httpMethod == MethodFallback
  {
    var m := Get(data, "method");
    Request(data.id, Get(data, "url"), if Truthy(m) then m.value else MethodFallback, Get(data, "startTime"))
  }

  /** The `setRequests` updater of a stream opening. */
  function WithRequest(requests: seq<Request>, data: Data): seq<Request> {
    if HasRequest(requests, data.id) then requests else requests + [NewRequest(data)]
  }

  /** The stored form of a message payload: a `fetch-chunk` moves `chunk` into `data` and is typed "stream". */
  function Payload(kind: string, data: Data): (p: Data)
    ensures kind != "fetch-chunk" ==> p == data
    ensures kind == "fetch-chunk" ==>
      && p.id == data.id
      && p.fields.Keys == (data.fields.Keys - {"data"}) + {"type"} + (if "chunk" in data.fields then {"data"} else {})
      && p.fields["type"] == Str("stream")
      && ("chunk" in data.fields ==> p.fields["data"] == data.fields["chunk"])
      && (forall name :: name in data.fields && name != "data" && name != "type" ==> p.fields[name] == data.fields[name])
  {
    if kind == "fetch-chunk" then
      var moved := if "chunk" in data.fields then data.fields["data" := data.fields["chunk"]] else data.fields - {"data"};
      Data(data.id, moved["type" := Str("stream")])
    else
      data
  }

  /** The `setMessagesMap` updater of a message: one payload appended to the stream's list. */
  function WithMessage(messagesMap: map<string, seq<Data>>, id: string, payload: Data): map<string, seq<Data>> {
    messagesMap[id := (if id in messagesMap then messagesMap[id] else []) + [payload]]
  }

  /** `handleMessage` as a reducer over the panel state. */
  function Reduce(p: Panel, msg: Capture): Panel {
    if IsStart(msg.kind) then
      Panel(WithRequest(p.requests, msg.data), p.messagesMap[msg.data.id := []])
    else if IsMessage(msg.kind) then
      Panel(p.requests, WithMessage(p.messagesMap, msg.data.id, Payload(msg.kind, msg.data)))
    else
      p
  }

  /** Several messages in arrival order. */
  function ReduceAll(p: Panel, msgs: seq<Capture>): Panel
    decreases |msgs|
  {
    if msgs == [] then p else ReduceAll(Reduce(p, msgs[0]), msgs[1..])
  }

  const Empty := Panel([], map[])

  // ---------------------------------------------------------------------------
  // Properties of one step
  // ---------------------------------------------------------------------------

  /** No two rows share an id. */
  predicate UniqueIds(requests: seq<Request>) {
    forall i, j :: 0 <= i < j < |requests| ==> requests[i].id != requests[j].id
  }

  /** The state the panel keeps: unique row ids, and a payload list for every row. */
  predicate Consistent(p: Panel) {
    && UniqueIds(p.requests)
    && forall i :: 0 <= i < |p.requests| ==> p.requests[i].id in p.messagesMap
  }

  /**
   * A stream opening adds a row exactly when none has its id, at the end,
   * keeping the earlier rows in order; the stream's payload list is reset to
   * empty either way, and every other stream's list is untouched.
   */
  lemma StartStep(p: Panel, msg: Capture)
    requires IsStart(msg.kind)
    ensures var q := Reduce(p, msg);
      && (HasRequest(p.requests, msg.data.id) ==> q.requests == p.requests)
      && (!HasRequest(p.requests, msg.data.id) ==> q.requests == p.requests + [NewRequest(msg.data)])
      && q.messagesMap.Keys == p.messagesMap.Keys + {msg.data.id}
      && q.messagesMap[msg.data.id] == []
      && (forall id :: id in p.messagesMap && id != msg.data.id ==> q.messagesMap[id] == p.messagesMap[id])
  {
  }

  /**
   * A message appends exactly one payload to the end of its stream's list,
   * creating the list if absent; other streams and the request list are untouched.
   */
  lemma MessageStep(p: Panel, msg: Capture)
    requires IsMessage(msg.kind)
    ensures var q := Reduce(p, msg);
      && q.requests == p.requests
      && q.messagesMap.Keys == p.messagesMap.Keys + {msg.data.id}
      && |q.messagesMap[msg.data.id]| == (if msg.data.id in p.messagesMap then |p.messagesMap[msg.data.id]| else 0) + 1
      && q.messagesMap[msg.data.id][|q.messagesMap[msg.data.id]| - 1] == Payload(msg.kind, msg.data)
      && (msg.data.id in p.messagesMap ==> p.messagesMap[msg.data.id] <= q.messagesMap[msg.data.id])
      && (forall id :: id in p.messagesMap && id != msg.data.id ==> q.messagesMap[id] == p.messagesMap[id])
  {
  }

  /** Any other capture type changes nothing. */
  lemma OtherStep(p: Panel, msg: Capture)
    requires !IsStart(msg.kind) && !IsMessage(msg.kind)
    ensures Reduce(p, msg) == p
  {
  }

  /** The request list only ever grows at its end, by at most one row. */
  lemma RequestsOnlyGrow(p: Panel, msg: Capture)
    ensures var q := Reduce(p, msg);
      p.requests <= q.requests && |q.requests| <= |p.requests| + 1
  {
  }

  /** Each step keeps row ids unique and every row's payload list present. */
  lemma ReduceKeepsConsistent(p: Panel, msg: Capture)
    requires Consistent(p)
    ensures Consistent(Reduce(p, msg))
  {
    var q := Reduce(p, msg);
    if IsStart(msg.kind) && !HasRequest(p.requests, msg.data.id) {
      var n := |p.requests|;
      assert q.requests == p.requests + [NewRequest(msg.data)];
      forall i, j | 0 <= i < j < |q.requests|
        ensures q.requests[i].id != q.requests[j].id
      {
        if j == n {
          assert q.requests[i] == p.requests[i];
        }
      }
    }
  }

  /** From an empty panel, any message history leaves the state consistent. */
  lemma {:induction false} ReduceAllConsistent(p: Panel, msgs: seq<Capture>)
    requires Consistent(p)
    ensures Consistent(ReduceAll(p, msgs))
    decreases |msgs|
  {
    if msgs != [] {
      ReduceKeepsConsistent(p, msgs[0]);
      ReduceAllConsistent(Reduce(p, msgs[0]), msgs[1..]);
    }
  }

  /** A stream opened twice keeps one row, the first, but its payload list restarts empty. */
  lemma ReopenKeepsRowResetsMessages(p: Panel, first: Capture, second: Capture)
    requires IsStart(first.kind) && IsStart(second.kind) && first.data.id == second.data.id
    ensures var q := Reduce(Reduce(p, first), second);
      && q.requests == Reduce(p, first).requests
      && first.data.id in q.messagesMap && q.messagesMap[first.data.id] == []
  {
    var p1 := Reduce(p, first);
    assert HasRequest(p1.requests, first.data.id) by {
      if !HasRequest(p.requests, first.data.id) {
        assert p1.requests[|p.requests|].id == first.data.id;
      }
    }
  }

  // ---------------------------------------------------------------------------
  // The hook
  // ---------------------------------------------------------------------------

  /** `useMessageProcessor`: the two state cells and the handlers that overwrite them. */
  class Hook {
    var requests: seq<Request>
    var messagesMap: map<string, seq<Data>>

    function State(): Panel
      reads this
    {
      Panel(requests, messagesMap)
    }

    constructor ()
      ensures State() == Empty
    {
      requests := [];
      messagesMap := map[];
    }

    /** A capture event arriving on the panel's port. */
    method HandleMessage(msg: Capture)
      modifies this
      requires Consistent(State())
      ensures State() == Reduce(old(State()), msg)
      ensures Consistent(State())
    {
      ReduceKeepsConsistent(State(), msg);
      if IsStart(msg.kind) {
        requests := WithRequest(requests, msg.data);
        messagesMap := messagesMap[msg.data.id := []];
      } else if IsMessage(msg.kind) {
        var payload := Payload(msg.kind, msg.data);
        messagesMap := WithMessage(messagesMap, msg.data.id, payload);
      }
    }

    /** The inspected page navigated away. */
    method OnNavigated()
      modifies this
      ensures State() == Empty
    {
      requests := [];
      messagesMap := map[];
    }

    /** The panel's "clear" action. */
    method ClearData()
      modifies this
      ensures State() == Empty
    {
      requests := [];
      messagesMap := map[];
    }
  }
}
