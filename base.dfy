/** Values shared by the speech-recognition server and its model wrapper. */
module Base {

  datatype Option<T> = None | Some(value: T)

  type Byte = bv8
  type Bytes = seq<Byte>

  /** A session id: the decimal `id()` of the session's websocket. */
  type SessionId = string

  /** One queued message, `{'session_id': ..., 'data': ...}`. */
  datatype Request = Request(sessionId: SessionId, data: Bytes)

  /** The settings the server reads from its configuration module. */
  datatype Config = Config(
    batchingSize: nat,       // BATCHING_SIZE
    batchingTimeoutMs: int,  // BATCHING_TIMEOUT_MS
    eosByte: Bytes,          // EOS_BYTE, the end-of-stream chunk
    eosStr: string           // EOS_STR, the reply to an end-of-stream chunk
  )

  /** A chunk is end-of-stream exactly when its bytes equal the sentinel. */
  predicate IsEos(cfg: Config, r: Request)
  {
    r.data == cfg.eosByte
  }

  predicate Distinct<T(==)>(s: seq<T>)
  {
    forall i, j :: 0 <= i < j < |s| ==> s[i] != s[j]
  }

  /** No two requests belong to the same session. */
  predicate DistinctSessions(rs: seq<Request>)
  {
    forall i, j :: 0 <= i < j < |rs| ==> rs[i].sessionId != rs[j].sessionId
  }

  /** The session of each request, in order. */
  function Sessions(rs: seq<Request>): seq<SessionId>
  {
    seq(|rs|, i requires 0 <= i < |rs| => rs[i].sessionId)
  }
}
