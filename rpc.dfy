/**
 * The transport: framing messages with a Content-Length header (section "Base Protocol" of
 * the Language Server Protocol), reading one framed request, and the multiplexer that routes
 * each request to its registered handler and writes the answer back.
 */
module Rpc {
  import opened Wrappers
  import opened Text
  import opened RpcErrors
  import opened RpcTypes

  /** The JSON encoder, which may fail (json.Marshal). */
  type Marshal = Message -> Result<seq<byte>, string>

  /** The JSON decoder of a request, applied to the bytes the decoder is allowed to see. */
  type Decode = seq<byte> -> Result<Request, string>

  /** A request handler: the result (None for nil) or an error. */
  type MethodHandler = RawMessage -> Result<Option<Value>, string>

  /** A notification handler: an error or None. */
  type NotificationHandler = RawMessage -> Option<string>

  const CR: byte := 13
  const LF: byte := 10
  const Colon: byte := 58

  const ErrUnexpectedEOF: string := "unexpected EOF"
  const ErrMalformedHeader: string := "malformed MIME header line"
  const ErrLengthSyntax: string := "strconv.ParseInt: invalid syntax"
  const ErrMethodNotFoundMessage: string := "method not found"

  lemma {:induction false} BytesAppend(a: string, b: string)
    requires IsAscii(a) && IsAscii(b)
    ensures IsAscii(a + b)
    ensures Bytes(a + b) == Bytes(a) + Bytes(b)
  {
    assert forall i :: 0 <= i < |a + b| ==> (a + b)[i] == if i < |a| then a[i] else b[i - |a|];
  }

  lemma NatStringAscii(n: nat)
    ensures IsAscii(NatString(n))
  {
    NatStringDigits(n);
  }

  // ---------------------------------------------------------------- writing

  /** The header Write puts before a body of n bytes. */
  function HeaderText(n: nat): (h: string)
    ensures IsAscii(h)
  {
    NatStringAscii(n);
    BytesAppend("Content-Length: ", NatString(n));
    BytesAppend("Content-Length: " + NatString(n), "\r\n\r\n");
    "Content-Length: " + NatString(n) + "\r\n\r\n"
  }

  /** A body framed for the wire: its header, then the body itself. */
  function Frame(body: seq<byte>): (f: seq<byte>)
    ensures |f| > |body| && f[|f| - |body|..] == body
  {
    Bytes(HeaderText(|body|)) + body
  }

  /** What has reached the underlying writer, and what still sits in the buffer. */
  datatype Stream = Stream(flushed: seq<byte>, buffered: seq<byte>)

  /** The stream after Write: unchanged when marshalling fails, else everything flushed through the new frame. */
  function AfterWrite(s: Stream, msg: Message, marshal: Marshal): (t: Stream)
    ensures marshal(msg).Err? ==> t == s
    ensures marshal(msg).Ok? ==> t.buffered == [] && |t.flushed| > |s.flushed| + |s.buffered|
  {
    match marshal(msg)
    case Err(_) => s
    case Ok(body) => Stream(s.flushed + s.buffered + Frame(body), [])
  }

  /** A buffered writer (bufio.Writer) over a writer that does not fail. */
  class Writer {
    var flushed: seq<byte>
    var buffered: seq<byte>

    function State(): Stream
      reads this
    {
      Stream(flushed, buffered)
    }

    constructor ()
      ensures State() == Stream([], [])
    {
      flushed := [];
      buffered := [];
    }

    method WriteBytes(b: seq<byte>)
      modifies this
      ensures flushed == old(flushed) && buffered == old(buffered) + b
    {
      buffered := buffered + b;
    }

    method Flush()
      modifies this
      ensures flushed == old(flushed) + old(buffered) && buffered == []
    {
      flushed := flushed + buffered;
      buffered := [];
    }
  }

  /** Marshal the message, write its header and body, flush; a marshalling error writes nothing. */
  method Write(w: Writer, msg: Message, marshal: Marshal) returns (err: Option<string>)
    modifies w
    ensures err.Some? <==> marshal(msg).Err?
    ensures err.Some? ==> err.value == marshal(msg).error
    ensures w.State() == AfterWrite(old(w.State()), msg, marshal)
  {
    var body := marshal(msg);
    if body.Err? {
      return Some(body.error);
    }
    var header := Bytes(HeaderText(|body.value|));
    w.WriteBytes(header);
    w.WriteBytes(body.value);
    w.Flush();
    assert header + body.value == Frame(body.value);
    assert w.flushed == old(w.flushed) + old(w.buffered) + (header + body.value);
    return None;
  }

  lemma HeaderOf18()
    ensures HeaderText(18) == "Content-Length: 18\r\n\r\n"
  {
    assert NatString(18) == "18";
  }

  /** The 18-byte body of `{"Haha":"content"}` is framed as `Content-Length: 18`, a blank line and the body. */
  lemma FrameExample()
    ensures IsAscii("{\"Haha\":\"content\"}") && IsAscii("Content-Length: 18\r\n\r\n")
    ensures Frame(Bytes("{\"Haha\":\"content\"}")) == Bytes("Content-Length: 18\r\n\r\n") + Bytes("{\"Haha\":\"content\"}")
  {
    assert |Bytes("{\"Haha\":\"content\"}")| == 18;
    HeaderOf18();
  }

  // ---------------------------------------------------------------- reading

  /** The index of the first b at or after i, or |s| when there is none. */
  function IndexOf(s: seq<byte>, b: byte, i: nat): (j: nat)
    requires i <= |s|
    ensures i <= j <= |s|
    ensures j < |s| ==> s[j] == b
    ensures forall k :: i <= k < j ==> s[k] != b
    decreases |s| - i
  {
    if i == |s| || s[i] == b then i else IndexOf(s, b, i + 1)
  }

  lemma FirstIndex(s: seq<byte>, b: byte, j: nat)
    requires j < |s| && s[j] == b
    requires forall k :: 0 <= k < j ==> s[k] != b
    ensures IndexOf(s, b, 0) == j
  {
  }

  datatype Line = Line(text: seq<byte>, rest: seq<byte>)

  /**
   * One header line: the bytes before the first line feed, without a carriage return that ends
   * them, and what follows the line feed; None when the input ends before a line feed.
   */
  function NextLine(s: seq<byte>): (l: Option<Line>)
    ensures l.Some? <==> LF in s
    ensures l.Some? ==> |l.value.rest| < |s| && LF !in l.value.text
  {
    var j := IndexOf(s, LF, 0);
    if j == |s| then None
    else
      var line := s[..j];
      var text := if line != [] && line[|line| - 1] == CR then line[..|line| - 1] else line;
      assert forall k :: 0 <= k < |text| ==> text[k] == s[k];
      Some(Line(text, s[j + 1..]))
  }

  predicate IsBlank(b: byte) {
    b == 32 || b == 9
  }

  function TrimLeft(s: seq<byte>): (r: seq<byte>)
    ensures |r| <= |s| && r == s[|s| - |r|..]
    ensures r != [] ==> !IsBlank(r[0])
    ensures forall k :: 0 <= k < |s| - |r| ==> IsBlank(s[k])
    decreases |s|
  {
    if s != [] && IsBlank(s[0]) then TrimLeft(s[1..]) else s
  }

  function TrimRight(s: seq<byte>): (r: seq<byte>)
    ensures |r| <= |s| && r == s[..|r|]
    ensures r != [] ==> !IsBlank(r[|r| - 1])
    ensures forall k :: |r| <= k < |s| ==> IsBlank(s[k])
    decreases |s|
  {
    if s != [] && IsBlank(s[|s| - 1]) then TrimRight(s[..|s| - 1]) else s
  }

  /** A header field: its name and its value with surrounding blanks removed. */
  datatype Field = Field(name: seq<byte>, value: seq<byte>)

  /** Split a header line at its first colon; a line without a colon is malformed. */
  function SplitField(line: seq<byte>): (f: Option<Field>)
    ensures f.Some? <==> Colon in line
    ensures f.Some? ==> Colon !in f.value.name && |f.value.name| < |line| && line[|f.value.name|] == Colon
  {
    var i := IndexOf(line, Colon, 0);
    if i == |line| then None
    else Some(Field(line[..i], TrimRight(TrimLeft(line[i + 1..]))))
  }

  datatype HeaderBlock = HeaderBlock(fields: seq<Field>, rest: seq<byte>)

  /** The header block (textproto's ReadMIMEHeader): field lines up to the first empty line. */
  function ReadHeader(s: seq<byte>): (h: Result<HeaderBlock, string>)
    ensures h.Ok? ==> |h.value.rest| < |s|
    decreases |s|
  {
    match NextLine(s)
    case None => Err(ErrUnexpectedEOF)
    case Some(Line(text, rest)) =>
      if text == [] then Ok(HeaderBlock([], rest))
      else
        match SplitField(text)
        case None => Err(ErrMalformedHeader)
        case Some(f) =>
          match ReadHeader(rest)
          case Err(e) => Err(e)
          case Ok(hb) => Ok(HeaderBlock([f] + hb.fields, hb.rest))
  }

  /** The value of the first field with the given name, or empty when there is none. */
  function HeaderGet(fields: seq<Field>, name: seq<byte>): (v: seq<byte>)
    ensures (forall i :: 0 <= i < |fields| ==> fields[i].name != name) ==> v == []
    ensures fields != [] && fields[0].name == name ==> v == fields[0].value
  {
    if fields == [] then []
    else if fields[0].name == name then fields[0].value
    else HeaderGet(fields[1..], name)
  }

  function ContentLengthName(): seq<byte> {
    Bytes("Content-Length")
  }

  /** What one Read gives: the request if the body decoded, the error, and the unread input. */
  datatype ReadOutcome = ReadOutcome(req: Option<Request>, err: Option<string>, rest: seq<byte>)

  /**
   * Read one frame: the header block, its Content-Length as a 64-bit decimal, then a request
   * decoded from at most that many of the following bytes; a request that is not JSON-RPC 2.0
   * comes back together with ErrInvalidMsg.
   */
  function ReadFrame(input: seq<byte>, decode: Decode): (o: ReadOutcome)
    ensures o.err.None? ==> o.req.Some? && IsJSONRPC(RequestMessage(o.req.value))
    ensures o.req.Some? && o.err.Some? ==> o.err.value == ErrInvalidMsg && !IsJSONRPC(RequestMessage(o.req.value))
    ensures ReadHeader(input).Err? ==> o.req.None? && o.err == Some(ReadHeader(input).error)
  {
    match ReadHeader(input)
    case Err(e) => ReadOutcome(None, Some(e), input)
    case Ok(hb) =>
      match ParseInt64(Chars(HeaderGet(hb.fields, ContentLengthName())))
      case None => ReadOutcome(None, Some(ErrLengthSyntax), hb.rest)
      case Some(n) =>
        var limit := if n <= 0 then 0 else if n < |hb.rest| then n else |hb.rest|;
        match decode(hb.rest[..limit])
        case Err(e) => ReadOutcome(None, Some(e), hb.rest[limit..])
        case Ok(req) =>
          if IsJSONRPC(RequestMessage(req)) then ReadOutcome(Some(req), None, hb.rest[limit..])
          else ReadOutcome(Some(req), Some(ErrInvalidMsg), hb.rest[limit..])
  }

  /** A header without a Content-Length field makes Read fail before anything is decoded. */
  lemma MissingLengthFails(input: seq<byte>, decode: Decode)
    requires ReadHeader(input).Ok?
    requires forall i :: 0 <= i < |ReadHeader(input).value.fields| ==> ReadHeader(input).value.fields[i].name != ContentLengthName()
    ensures ReadFrame(input, decode).req.None?
    ensures ReadFrame(input, decode).err == Some(ErrLengthSyntax)
  {
  }

  /** A Content-Length that is not base-10 integer text, or does not fit in 64 bits, makes Read
      fail before anything is decoded; the header block is consumed. */
  lemma LengthRejected(input: seq<byte>, decode: Decode)
    requires ReadHeader(input).Ok?
    requires var t := Chars(HeaderGet(ReadHeader(input).value.fields, ContentLengthName()));
      !DecimalSyntax(t) || DecimalValue(t) < MinInt64 || DecimalValue(t) > MaxInt64
    ensures ReadFrame(input, decode) == ReadOutcome(None, Some(ErrLengthSyntax), ReadHeader(input).value.rest)
  {
  }

  /** A line ended by a carriage return and a line feed, where the line holds no line feed. */
  lemma {:induction false} NextLineCRLF(text: seq<byte>, tail: seq<byte>)
    requires LF !in text
    ensures NextLine(text + [CR, LF] + tail) == Some(Line(text, tail))
  {
    var s := text + [CR, LF] + tail;
    var j := IndexOf(s, LF, 0);
    assert s[|text| + 1] == LF;
    assert forall k :: 0 <= k < |text| + 1 ==> s[k] != LF;
    assert j == |text| + 1;
    assert s[..j] == text + [CR];
    assert s[j + 1..] == tail;
  }

  /** A value after a single space, that neither starts nor ends with a blank, is trimmed to itself. */
  lemma TrimAfterSpace(v: seq<byte>)
    requires v != [] && !IsBlank(v[0]) && !IsBlank(v[|v| - 1])
    ensures TrimRight(TrimLeft([32] + v)) == v
  {
    assert ([32] + v)[1..] == v;
  }

  lemma ContentLengthBytes()
    ensures |ContentLengthName()| == 14
    ensures LF !in ContentLengthName() && Colon !in ContentLengthName()
  {
    assert ContentLengthName() == [67, 111, 110, 116, 101, 110, 116, 45, 76, 101, 110, 103, 116, 104];
  }

  /** A field line: a name without colons or line feeds, a colon, a space and a string of digits. */
  lemma FieldLineBytes(name: seq<byte>, digits: seq<byte>)
    requires |name| == 14 && LF !in name && Colon !in name
    requires digits != [] && forall k :: 0 <= k < |digits| ==> 48 <= digits[k] <= 57
    ensures LF !in name + [Colon, 32] + digits
    ensures SplitField(name + [Colon, 32] + digits) == Some(Field(name, digits))
  {
    var line := name + [Colon, 32] + digits;
    assert LF !in digits;
    ColonAt(name, digits);
    assert line[..14] == name;
    assert line[15..] == [32] + digits;
    TrimAfterSpace(digits);
  }

  lemma ColonAt(name: seq<byte>, digits: seq<byte>)
    requires |name| == 14 && Colon !in name
    ensures IndexOf(name + [Colon, 32] + digits, Colon, 0) == 14
  {
    var line := name + [Colon, 32] + digits;
    assert line[14] == Colon;
    assert forall k :: 0 <= k < 14 ==> line[k] == name[k];
    FirstIndex(line, Colon, 14);
  }

  /** The decimal spelling of a length, as bytes: one or more digits. */
  lemma DigitBytes(n: nat)
    ensures IsAscii(NatString(n))
    ensures Bytes(NatString(n)) != []
    ensures forall k :: 0 <= k < |Bytes(NatString(n))| ==> 48 <= Bytes(NatString(n))[k] <= 57
  {
    NatStringDigits(n);
  }

  /** The field line of the header Write produces, without its line end. */
  lemma FieldLine(n: nat)
    ensures IsAscii(NatString(n)) && IsAscii("Content-Length: " + NatString(n))
    ensures Bytes("Content-Length: " + NatString(n)) == ContentLengthName() + [Colon, 32] + Bytes(NatString(n))
  {
    var d := NatString(n);
    NatStringAscii(n);
    BytesAppend("Content-Length", ": ");
    assert "Content-Length" + ": " == "Content-Length: ";
    BytesAppend("Content-Length: ", d);
    assert Bytes(": ") == [Colon, 32];
  }

  /** The header Write produces, as bytes: the field line, then two line ends. */
  lemma HeaderBytes(n: nat, rest: seq<byte>)
    ensures IsAscii("Content-Length: " + NatString(n))
    ensures Bytes(HeaderText(n)) + rest == Bytes("Content-Length: " + NatString(n)) + [CR, LF] + ([CR, LF] + rest)
  {
    NatStringAscii(n);
    BytesAppend("Content-Length: ", NatString(n));
    BytesAppend("Content-Length: " + NatString(n), "\r\n\r\n");
    assert Bytes("\r\n\r\n") == [CR, LF] + [CR, LF];
    Regroup(Bytes("Content-Length: " + NatString(n)), [CR, LF], rest);
  }

  lemma Regroup(a: seq<byte>, e: seq<byte>, rest: seq<byte>)
    ensures a + (e + e) + rest == a + e + (e + rest)
  {
  }

  /** The empty line ends the header block. */
  lemma EmptyLineEndsHeader(rest: seq<byte>)
    ensures ReadHeader([CR, LF] + rest) == Ok(HeaderBlock([], rest))
  {
    NextLineCRLF([], rest);
    assert [] + [CR, LF] + rest == [CR, LF] + rest;
  }

  /** A field line is read, then the rest of the header block after it. */
  lemma FieldLineThen(line: seq<byte>, f: Field, t: seq<byte>, hb: HeaderBlock)
    requires line != [] && LF !in line && SplitField(line) == Some(f) && ReadHeader(t) == Ok(hb)
    ensures ReadHeader(line + [CR, LF] + t) == Ok(HeaderBlock([f] + hb.fields, hb.rest))
  {
    NextLineCRLF(line, t);
  }

  /** A single field line followed by the empty line is a header block of that one field. */
  lemma OneFieldHeader(line: seq<byte>, f: Field, rest: seq<byte>)
    requires line != [] && LF !in line && SplitField(line) == Some(f)
    ensures ReadHeader(line + [CR, LF] + ([CR, LF] + rest)) == Ok(HeaderBlock([f], rest))
  {
    EmptyLineEndsHeader(rest);
    FieldLineThen(line, f, [CR, LF] + rest, HeaderBlock([], rest));
    assert [f] + [] == [f];
  }

  /** The header Write produces reads back as one Content-Length field holding the body's length. */
  lemma ReadHeaderOfFrame(n: nat, rest: seq<byte>)
    ensures IsAscii(NatString(n))
    ensures ReadHeader(Bytes(HeaderText(n)) + rest)
         == Ok(HeaderBlock([Field(ContentLengthName(), Bytes(NatString(n)))], rest))
  {
    DigitBytes(n);
    var digits := Bytes(NatString(n));
    ContentLengthBytes();
    FieldLineBytes(ContentLengthName(), digits);
    FieldLine(n);
    HeaderBytes(n, rest);
    OneFieldHeader(Bytes("Content-Length: " + NatString(n)), Field(ContentLengthName(), digits), rest);
  }

  /** Reading a frame produced by Write yields the request its body decodes to, and nothing more is consumed. */
  lemma ReadFrameRoundTrip(body: seq<byte>, more: seq<byte>, decode: Decode)
    requires |body| <= MaxInt64
    requires decode(body).Ok? && IsJSONRPC(RequestMessage(decode(body).value))
    ensures ReadFrame(Frame(body) + more, decode) == ReadOutcome(Some(decode(body).value), None, more)
  {
    var n := |body|;
    assert Frame(body) + more == Bytes(HeaderText(n)) + (body + more);
    ReadHeaderOfFrame(n, body + more);
    NatStringRoundTrip(n);
    CharsOfBytes(NatString(n));
    var fields := [Field(ContentLengthName(), Bytes(NatString(n)))];
    assert HeaderGet(fields, ContentLengthName()) == Bytes(NatString(n));
    assert (body + more)[..n] == body;
    assert (body + more)[n..] == more;
  }

  /** An input stream read through a buffer (bufio.Reader); `data` is what is still unread. */
  class Reader {
    var data: seq<byte>

    constructor (input: seq<byte>)
      ensures data == input
    {
      data := input;
    }
  }

  /** Read one request from the reader. */
  method Read(r: Reader, decode: Decode) returns (req: Option<Request>, err: Option<string>)
    modifies r
    ensures req == ReadFrame(old(r.data), decode).req
    ensures err == ReadFrame(old(r.data), decode).err
    ensures req.Some? ==> r.data == ReadFrame(old(r.data), decode).rest
  {
    var header := ReadHeader(r.data);
    if header.Err? {
      return None, Some(header.error);
    }
    var contentLength := ParseInt64(Chars(HeaderGet(header.value.fields, ContentLengthName())));
    if contentLength.None? {
      r.data := header.value.rest;
      return None, Some(ErrLengthSyntax);
    }
    var n := contentLength.value;
    var limit := if n <= 0 then 0 else if n < |header.value.rest| then n else |header.value.rest|;
    var decoded := decode(header.value.rest[..limit]);
    r.data := header.value.rest[limit..];
    if decoded.Err? {
      return None, Some(decoded.error);
    }
    if !IsJSONRPC(RequestMessage(decoded.value)) {
      return Some(decoded.value), Some(ErrInvalidMsg);
    }
    return Some(decoded.value), None;
  }

  // ---------------------------------------------------------------- dispatch

  /** A successful response: version 2.0, the request's ID and the result. */
  function NewResponse(id: Option<RawMessage>, result: Option<Value>): (r: Response)
    ensures IsJSONRPC(ResponseMessage(r))
    ensures r.id == id && r.result == result && r.error.None?
  {
    Response(Version, id, result, None)
  }

  /** An error response: version 2.0 and the error object; the ID it is given is not stored. */
  function NewResponseError(id: Option<RawMessage>, code: ErrorCode, err: string): (r: Response)
    ensures IsJSONRPC(ResponseMessage(r))
    ensures r.id.None? && r.result.None?
    ensures r.error.Some? && r.error.value.code == code && ErrorString(r.error.value) == err
  {
    Response(Version, None, None, Some(Error(code, err, None)))
  }

  /** The answer to a request, if any: the request handler's result, or the error response. */
  function Dispatch(req: Request, methodHandlers: map<string, MethodHandler>): Option<Response> {
    if IsNotification(req) then None
    else if req.methodName !in methodHandlers then
      Some(NewResponseError(req.id, ErrMethodNotFound, ErrMethodNotFoundMessage))
    else
      match methodHandlers[req.methodName](req.params)
      case Err(e) => Some(NewResponseError(req.id, ErrInternalError, e))
      case Ok(v) => Some(NewResponse(req.id, v))
  }

  /** The names of the handlers a request runs: its notification or request handler, if registered. */
  function Invoked(req: Request, notificationHandlers: map<string, NotificationHandler>,
                   methodHandlers: map<string, MethodHandler>): (names: seq<string>)
    ensures |names| <= 1 && forall i :: 0 <= i < |names| ==> names[i] == req.methodName
  {
    if IsNotification(req) then
      if req.methodName in notificationHandlers then [req.methodName] else []
    else if req.methodName in methodHandlers then [req.methodName] else []
  }

  /** The stream after answering: unchanged when there is no answer, else the answer written. */
  function Answer(s: Stream, answer: Option<Response>, marshal: Marshal): Stream {
    match answer
    case None => s
    case Some(resp) => AfterWrite(s, ResponseMessage(resp), marshal)
  }

  /**
   * A notification is never answered. Every other request is answered by one JSON-RPC 2.0
   * response: -32601 and no result when its method has no handler, -32603 and the handler's
   * message when the handler fails, and otherwise the request's ID with the handler's result.
   * Error responses carry no ID.
   */
  lemma DispatchAnswers(req: Request, methodHandlers: map<string, MethodHandler>)
    ensures Dispatch(req, methodHandlers).None? <==> IsNotification(req)
    ensures Dispatch(req, methodHandlers).Some? ==>
      var r := Dispatch(req, methodHandlers).value;
      && IsJSONRPC(ResponseMessage(r))
      && (r.error.Some? <==> r.id.None?)
      && (r.error.Some? ==> r.result.None?)
      && (r.error.Some? && r.error.value.code == ErrMethodNotFound <==> req.methodName !in methodHandlers)
      && (r.error.Some? && r.error.value.code == ErrInternalError <==>
            req.methodName in methodHandlers && methodHandlers[req.methodName](req.params).Err?)
      && (r.error.Some? && r.error.value.code == ErrInternalError ==>
            ErrorString(r.error.value) == methodHandlers[req.methodName](req.params).error)
      && (r.error.None? ==> r.id == req.id && r.result == methodHandlers[req.methodName](req.params).value)
  {
    assert ErrMethodNotFound != ErrInternalError;
  }

  /** Error responses encode only their version and error members. */
  lemma ErrorResponseKeys(id: Option<RawMessage>, code: ErrorCode, err: string)
    ensures ResponseKeys(NewResponseError(id, code, err)) == {"jsonrpc", "error"}
  {
    var keys := ResponseKeys(NewResponseError(id, code, err));
    assert forall k :: k in keys <==> k == "jsonrpc" || k == "error";
  }

  /** The multiplexer: the streams, the handler registries and the trace of handlers run. */
  class Mux {
    const reader: Reader
    const writer: Writer
    var notificationHandlers: map<string, NotificationHandler>
    var methodHandlers: map<string, MethodHandler>
    var invoked: seq<string>

    constructor NewMux(input: seq<byte>)
      ensures fresh(reader) && fresh(writer)
      ensures reader.data == input && writer.State() == Stream([], [])
      ensures notificationHandlers == map[] && methodHandlers == map[] && invoked == []
    {
      reader := new Reader(input);
      writer := new Writer();
      notificationHandlers := map[];
      methodHandlers := map[];
      invoked := [];
    }

    /** Register a request handler; a later registration under the same name replaces it. */
    method HandleMethod(name: string, handler: MethodHandler)
      modifies this
      ensures methodHandlers == old(methodHandlers)[name := handler]
      ensures notificationHandlers == old(notificationHandlers) && invoked == old(invoked)
    {
      methodHandlers := methodHandlers[name := handler];
    }

    /** Register a notification handler; a later registration under the same name replaces it. */
    method HandleNotification(name: string, handler: NotificationHandler)
      modifies this
      ensures notificationHandlers == old(notificationHandlers)[name := handler]
      ensures methodHandlers == old(methodHandlers) && invoked == old(invoked)
    {
      notificationHandlers := notificationHandlers[name := handler];
    }

    /** Send a message to the client. */
    method Send(msg: Message, marshal: Marshal) returns (err: Option<string>)
      modifies writer
      ensures err.Some? <==> marshal(msg).Err?
      ensures writer.State() == AfterWrite(old(writer.State()), msg, marshal)
    {
      err := Write(writer, msg, marshal);
    }

    /** Send a JSON-RPC 2.0 notification to the client. */
    method Notify(methodName: string, params: Option<Value>, marshal: Marshal) returns (err: Option<string>)
      modifies writer
      ensures err.Some? <==> marshal(NotificationMessage(Notification(methodName, params, Version))).Err?
      ensures writer.State() == AfterWrite(old(writer.State()),
                NotificationMessage(Notification(methodName, params, Version)), marshal)
    {
      err := Send(NotificationMessage(Notification(methodName, params, Version)), marshal);
    }

    /**
     * Read one request and handle it. The result is Read's error; failures of handlers and of
     * writing the answer are only logged.
     */
    method Process(decode: Decode, marshal: Marshal) returns (err: Option<string>)
      modifies this, reader, writer
      ensures err == ReadFrame(old(reader.data), decode).err
      ensures notificationHandlers == old(notificationHandlers) && methodHandlers == old(methodHandlers)
      ensures ReadFrame(old(reader.data), decode).req.Some? ==> reader.data == ReadFrame(old(reader.data), decode).rest
      ensures err.Some? ==> writer.State() == old(writer.State()) && invoked == old(invoked)
      ensures err.None? ==>
        var req := ReadFrame(old(reader.data), decode).req.value;
        && invoked == old(invoked) + Invoked(req, notificationHandlers, methodHandlers)
        && writer.State() == Answer(old(writer.State()), Dispatch(req, methodHandlers), marshal)
    {
      var req, readErr := Read(reader, decode);
      if readErr.Some? {
        return readErr;
      }
      var r := req.value;
      if IsNotification(r) {
        if r.methodName in notificationHandlers {
          var nErr := notificationHandlers[r.methodName](r.params);
          invoked := invoked + [r.methodName];
        }
      } else {
        Reply(r, marshal);
      }
      return None;
    }

    /** Answer a request that is not a notification; a failure to write is only logged. */
    method Reply(r: Request, marshal: Marshal)
      requires !IsNotification(r)
      modifies this, writer
      ensures notificationHandlers == old(notificationHandlers) && methodHandlers == old(methodHandlers)
      ensures invoked == old(invoked) + Invoked(r, notificationHandlers, methodHandlers)
      ensures writer.State() == Answer(old(writer.State()), Dispatch(r, methodHandlers), marshal)
    {
      if r.methodName !in methodHandlers {
        var wErr := Send(ResponseMessage(NewResponseError(r.id, ErrMethodNotFound, ErrMethodNotFoundMessage)), marshal);
        return;
      }
      var result := methodHandlers[r.methodName](r.params);
      invoked := invoked + [r.methodName];
      if result.Err? {
        var wErr := Send(ResponseMessage(NewResponseError(r.id, ErrInternalError, result.error)), marshal);
        return;
      }
      var wErr := Send(ResponseMessage(NewResponse(r.id, result.value)), marshal);
    }
  }
}
