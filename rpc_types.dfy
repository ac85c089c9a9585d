/**
 * The JSON-RPC 2.0 message shapes: requests, responses, notifications and error objects,
 * with the predicates that classify them.
 */
module RpcTypes {
  import opened Wrappers
  import opened Text
  import opened RpcErrors

  /** A JSON value kept as its undecoded bytes (json.RawMessage). */
  type RawMessage = seq<byte>

  /** A Go value of static type `any`, represented by the JSON it marshals to. */
  type Value = RawMessage

  const Version: string := "2.0"

  /** A request; `id` is None for a nil ID pointer. */
  datatype Request = Request(jsonrpc: string, id: Option<RawMessage>, methodName: string, params: RawMessage)

  /** An error object; `data` is None for a nil value. */
  datatype Error = Error(code: ErrorCode, message: string, data: Option<Value>)

  /** A response; the three optional members are omitted from the encoding when None. */
  datatype Response = Response(jsonrpc: string, id: Option<RawMessage>, result: Option<Value>, error: Option<Error>)

  datatype Notification = Notification(methodName: string, params: Option<Value>, jsonrpc: string)

  /** Everything Write can send: the Message interface and its three implementations. */
  datatype Message =
    | RequestMessage(request: Request)
    | ResponseMessage(response: Response)
    | NotificationMessage(notification: Notification)

  function MessageVersion(m: Message): string {
    match m
    case RequestMessage(r) => r.jsonrpc
    case ResponseMessage(r) => r.jsonrpc
    case NotificationMessage(n) => n.jsonrpc
  }

  /** A message speaks JSON-RPC 2.0 exactly when its version member is "2.0". */
  predicate IsJSONRPC(m: Message) {
    MessageVersion(m) == Version
  }

  /** A request is a notification exactly when it has no ID. */
  predicate IsNotification(r: Request) {
    r.id.None?
  }

  /** The error interface of an error object: its message. */
  function ErrorString(e: Error): (s: string)
    ensures s == e.message
  {
    e.message
  }

  /** The member names the JSON encoding of a response carries: `omitempty` drops the empty ones. */
  function ResponseKeys(r: Response): (keys: set<string>)
    ensures "jsonrpc" in keys
    ensures "id" in keys <==> r.id.Some?
    ensures "result" in keys <==> r.result.Some?
    ensures "error" in keys <==> r.error.Some?
    ensures keys <= {"jsonrpc", "id", "result", "error"}
  {
    {"jsonrpc"}
      + (if r.id.Some? then {"id"} else {})
      + (if r.result.Some? then {"result"} else {})
      + (if r.error.Some? then {"error"} else {})
  }

  const ErrInvalidContentLengthHeader: string := "invalid content length header"
  const ErrInvalidMsg: string := "invalid message"

  /** The two sentinel errors are different errors. */
  lemma SentinelsDistinct()
    ensures ErrInvalidContentLengthHeader != ErrInvalidMsg
  {
    assert |ErrInvalidContentLengthHeader| != |ErrInvalidMsg|;
  }

  /** Classification by version is the same test for every kind of message. */
  lemma VersionClassifies(r: Request, resp: Response, n: Notification)
    ensures IsJSONRPC(RequestMessage(r)) <==> r.jsonrpc == "2.0"
    ensures IsJSONRPC(ResponseMessage(resp)) <==> resp.jsonrpc == "2.0"
    ensures IsJSONRPC(NotificationMessage(n)) <==> n.jsonrpc == "2.0"
  {
  }
}
