/** The part of `http.ResponseWriter` the watchdog relies on. */
module Responses {
  import opened ByteStreams

  const STATUS_OK := 200
  const STATUS_METHOD_NOT_ALLOWED := 405
  const STATUS_TOO_MANY_REQUESTS := 429
  const STATUS_INTERNAL_SERVER_ERROR := 500
  const STATUS_SERVICE_UNAVAILABLE := 503
  const STATUS_GATEWAY_TIMEOUT := 504

  /** `statuses` lists every call to `WriteHeader`, the implicit one of a first `Write` included. */
  class ResponseWriter {
    var statuses: seq<int>
    var body: bytes

    constructor ()
      ensures statuses == [] && body == []
    {
      statuses, body := [], [];
    }

    method WriteHeader(status: int)
      modifies this
      ensures statuses == old(statuses) + [status] && body == old(body)
    {
      statuses := statuses + [status];
    }

    method Write(p: bytes)
      modifies this
      ensures statuses == if old(statuses) == [] then [STATUS_OK] else old(statuses)
      ensures body == old(body) + p
    {
      if statuses == [] {
        statuses := [STATUS_OK];
      }
      body := body + p;
    }
  }
}
