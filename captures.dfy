/**
 * The capture events the interceptor posts and the panel consumes: a tagged
 * union keyed by its type (`kind` here), whose `data` object always carries the stream's `id`.
 */
module Captures {

  /** A property value of a capture's `data` object. */
  datatype Field = Str(s: string) | Num(n: int)

  /** The `data` object: its `id` and every other property by name. */
  datatype Data = Data(id: string, fields: map<string, Field>)

  /** One message `{ type, data }` as it travels from the page to the panel. */
  datatype Capture = Capture(kind: string, data: Data)

  function EsConnect(id: string, url: string, now: int): Capture {
    Capture("es-connect", Data(id, map["url" := Str(url), "startTime" := Num(now)]))
  }

  function EsMessage(id: string, eventType: string, payload: string, now: int): Capture {
    Capture("es-message", Data(id, map["type" := Str(eventType), "data" := Str(payload), "time" := Num(now)]))
  }

  function EsError(id: string, now: int): Capture {
    Capture("es-error", Data(id, map["time" := Num(now)]))
  }

  function FetchStart(id: string, url: string, httpMethod: string, now: int): Capture {
    Capture("fetch-start", Data(id, map["url" := Str(url), "method" := Str(httpMethod), "startTime" := Num(now)]))
  }

  function FetchDone(id: string, now: int): Capture {
    Capture("fetch-done", Data(id, map["time" := Num(now)]))
  }

  function FetchError(id: string, error: string): Capture {
    Capture("fetch-error", Data(id, map["error" := Str(error)]))
  }
}
