/** JSON-RPC 2.0 messages: their four wire shapes, and decoding any JSON value. */
module JsonRpc {
  import opened Wrappers
  import opened Encoding
  import opened Json
  import JsonNesting

  const VERSION := "2.0"

  const PARSE_ERROR := -32700
  const INVALID_REQUEST := -32600
  const METHOD_NOT_FOUND := -32601
  const INVALID_PARAMS := -32602
  const INTERNAL_ERROR := -32603

  const MAX_JSON_NESTING_DEPTH: nat := 128

  type I64 = n: int | I64_MIN <= n <= I64_MAX

  datatype Id = NumberId(n: I64) | StringId(text: string)

  datatype RpcError = RpcError(code: I64, message: string, data: Option<Json>)

  datatype Message =
    | Request(version: string, id: Id, name: string, params: Option<Json>)
    | Notification(version: string, name: string, params: Option<Json>)
    | SuccessResponse(version: string, id: Id, result: Json)
    | ErrorResponse(version: string, errorId: Option<Id>, error: RpcError)

  function InvalidRequest(message: string): RpcError {
    RpcError(INVALID_REQUEST, message, None)
  }

  // ----- Encoding -----

  function IdJson(id: Id): Json {
    match id
    case NumberId(n) => Integer(n)
    case StringId(text) => String(text)
  }

  function NullableId(id: Option<Id>): Json {
    if id.None? then Null else IdJson(id.value)
  }

  function ErrorJson(e: RpcError): Json {
    Object([("code", Integer(e.code))] + ([("message", String(e.message))] + Optional("data", e.data)))
  }

  function MembersOf(m: Message): Members {
    [("jsonrpc", String(m.version))] +
    match m {
      case Request(_, id, name, params) =>
        [("id", IdJson(id))] + ([("method", String(name))] + Optional("params", params))
      case Notification(_, name, params) => [("method", String(name))] + Optional("params", params)
      case SuccessResponse(_, id, result) => [("id", IdJson(id))] + ([("result", result)] + [])
      case ErrorResponse(_, id, error) => [("id", NullableId(id))] + ([("error", ErrorJson(error))] + [])
    }
  }

  function Encode(m: Message): Json {
    Object(MembersOf(m))
  }

  // ----- Decoding -----

  function ParseId(v: Json): Option<Id> {
    match v
    case Integer(n) => if n <= I64_MAX then Some(NumberId(n)) else None
    case String(text) => Some(StringId(text))
    case _ => None
  }

  /** The fields of an error, given what stands for each of them. A null for `data` is no data. */
  function ErrorFrom(code: Option<Json>, message: Option<Json>, data: Option<Json>): Option<RpcError> {
    match (code, message)
    case (Some(Integer(n)), Some(String(text))) =>
      if n <= I64_MAX then Some(RpcError(n, text, if data == Some(Null) then None else data)) else None
    case _ => None
  }

  /** An error is read from an object, or from an array with its fields in order. */
  function ParseError(v: Json): Option<RpcError> {
    match v
    case Object(members) => ErrorFrom(Get(members, "code"), Get(members, "message"), Get(members, "data"))
    case Array(items) =>
      if |items| == 2 then ErrorFrom(Some(items[0]), Some(items[1]), None)
      else if |items| == 3 then ErrorFrom(Some(items[0]), Some(items[1]), Some(items[2]))
      else None
    case _ => None
  }

  function DecodeRequestOrNotification(members: Members, methodValue: Json): Result<Message, RpcError> {
    if !methodValue.String? then Err(InvalidRequest("\"method\" must be a string"))
    else
      var params := Get(members, "params");
      match Get(members, "id")
      case None => Ok(Notification(VERSION, methodValue.text, params))
      case Some(idValue) =>
        match ParseId(idValue)
        case None => Err(InvalidRequest("\"id\" must be a number or string"))
        case Some(id) => Ok(Request(VERSION, id, methodValue.text, params))
  }

  function DecodeSuccess(members: Members, result: Json): Result<Message, RpcError> {
    match Get(members, "id")
    case None => Err(InvalidRequest("missing \"id\" field"))
    case Some(idValue) =>
      match ParseId(idValue)
      case None => Err(InvalidRequest("\"id\" must be a number or string"))
      case Some(id) => Ok(SuccessResponse(VERSION, id, result))
  }

  function DecodeFailure(members: Members, error: Json): Result<Message, RpcError> {
    match Get(members, "id")
    case None => Err(InvalidRequest("missing \"id\" field"))
    case Some(idValue) =>
      if idValue != Null && ParseId(idValue).None? then
        Err(InvalidRequest("\"id\" must be a number, string, or null"))
      else
        match ParseError(error)
        case None => Err(InvalidRequest("invalid \"error\" object"))
        case Some(e) => Ok(ErrorResponse(VERSION, ParseId(idValue), e))
  }

  function DecodeResponse(members: Members): Result<Message, RpcError> {
    match (Get(members, "result"), Get(members, "error"))
    case (Some(_), Some(_)) => Err(InvalidRequest("a response must not contain both \"result\" and \"error\""))
    case (Some(result), None) => DecodeSuccess(members, result)
    case (None, Some(error)) => DecodeFailure(members, error)
    case (None, None) =>
      Err(InvalidRequest("a JSON-RPC message must contain \"method\", \"result\", or \"error\""))
  }

  function DecodeValue(v: Json): Result<Message, RpcError> {
    if !v.Object? then Err(InvalidRequest("a JSON-RPC message must be a JSON object"))
    else
      match Get(v.members, "jsonrpc")
      case None => Err(InvalidRequest("missing \"jsonrpc\" field"))
      case Some(version) =>
        if version != String(VERSION) then Err(InvalidRequest("\"jsonrpc\" must be the string \"2.0\""))
        else
          match Get(v.members, "method")
          case Some(methodValue) => DecodeRequestOrNotification(v.members, methodValue)
          case None => DecodeResponse(v.members)
  }

  // ----- What can be decoded -----

  predicate IsId(v: Option<Json>) {
    v.Some? && ((v.value.Integer? && v.value.n <= I64_MAX) || v.value.String?)
  }

  /** A JSON object that declares version 2.0. */
  predicate Declared(v: Json) {
    v.Object? && Get(v.members, "jsonrpc") == Some(String("2.0"))
  }

  predicate HasMethod(v: Json)
    requires v.Object?
  {
    Get(v.members, "method").Some? && Get(v.members, "method").value.String?
  }

  predicate IsRequest(v: Json) {
    Declared(v) && HasMethod(v) && IsId(Get(v.members, "id"))
  }

  predicate IsNotification(v: Json) {
    Declared(v) && HasMethod(v) && Get(v.members, "id").None?
  }

  predicate IsSuccess(v: Json) {
    && Declared(v) && Get(v.members, "method").None? && Get(v.members, "error").None?
    && Get(v.members, "result").Some? && IsId(Get(v.members, "id"))
  }

  predicate IsErrorBody(v: Json) {
    (v.Object? && IsErrorFields(Get(v.members, "code"), Get(v.members, "message")))
    || (v.Array? && 2 <= |v.items| <= 3 && IsErrorFields(Some(v.items[0]), Some(v.items[1])))
  }

  predicate IsErrorFields(code: Option<Json>, message: Option<Json>) {
    code.Some? && code.value.Integer? && code.value.n <= I64_MAX && message.Some? && message.value.String?
  }

  predicate IsFailure(v: Json) {
    && Declared(v) && Get(v.members, "method").None? && Get(v.members, "result").None?
    && Get(v.members, "error").Some? && IsErrorBody(Get(v.members, "error").value)
    && (Get(v.members, "id") == Some(Null) || IsId(Get(v.members, "id")))
  }

  /** Every JSON value is of exactly one of the four shapes, or is an invalid request. */
  lemma ShapesExact(v: Json)
    ensures var r := DecodeValue(v);
            && (r.Ok? && r.value.Request? <==> IsRequest(v))
            && (r.Ok? && r.value.Notification? <==> IsNotification(v))
            && (r.Ok? && r.value.SuccessResponse? <==> IsSuccess(v))
            && (r.Ok? && r.value.ErrorResponse? <==> IsFailure(v))
            && (r.Err? <==> !IsRequest(v) && !IsNotification(v) && !IsSuccess(v) && !IsFailure(v))
            && (r.Err? ==> r.error.code == -32600 && r.error.data == None)
  {
    hide Get, DecodeRequestOrNotification, DecodeResponse, IsErrorBody;
    if v.Object? {
      if Get(v.members, "method").Some? {
        MethodShapes(v.members, Get(v.members, "method").value);
      } else {
        ResponseShapes(v.members);
      }
    }
  }

  lemma MethodShapes(members: Members, methodValue: Json)
    ensures var r := DecodeRequestOrNotification(members, methodValue);
            var id := Get(members, "id");
            && (r.Ok? ==> r.value.Request? || r.value.Notification?)
            && (r.Ok? && r.value.Request? <==> methodValue.String? && IsId(id))
            && (r.Ok? && r.value.Notification? <==> methodValue.String? && id.None?)
            && (r.Err? ==> r.error.code == INVALID_REQUEST && r.error.data == None)
  {
    hide Get;
  }

  lemma ResponseShapes(members: Members)
    ensures var r := DecodeResponse(members);
            var id, result, error := Get(members, "id"), Get(members, "result"), Get(members, "error");
            && (r.Ok? ==> r.value.SuccessResponse? || r.value.ErrorResponse?)
            && (r.Ok? && r.value.SuccessResponse? <==> result.Some? && error.None? && IsId(id))
            && (r.Ok? && r.value.ErrorResponse? <==>
                result.None? && error.Some? && IsErrorBody(error.value) && (id == Some(Null) || IsId(id)))
            && (r.Err? ==> r.error.code == INVALID_REQUEST && r.error.data == None)
  {
    hide Get, ParseError, IsErrorBody, ParseId, IsId;
    IdExact(Get(members, "id"));
    match (Get(members, "result"), Get(members, "error"))
    case (None, Some(error)) => ErrorBodyExact(error);
    case (Some(_), None) => hide DecodeFailure;
    case _ => hide DecodeFailure, DecodeSuccess;
  }

  lemma IdExact(v: Option<Json>)
    ensures v.Some? ==> (ParseId(v.value).Some? <==> IsId(v)) && ParseId(Null).None?
    ensures v.None? ==> !IsId(v)
  {
  }

  lemma ErrorBodyExact(v: Json)
    ensures ParseError(v).Some? <==> IsErrorBody(v)
  {
    hide Get;
  }

  /** A message and all its members: looking up in what a message is encoded as. */
  lemma GetEncoded(m: Message, key: string)
    ensures Get(MembersOf(m), key) ==
            if key == "jsonrpc" then Some(String(m.version))
            else match m {
              case Request(_, id, name, params) =>
                if key == "id" then Some(IdJson(id)) else if key == "method" then Some(String(name))
                else if key == "params" then params else None
              case Notification(_, name, params) =>
                if key == "method" then Some(String(name)) else if key == "params" then params else None
              case SuccessResponse(_, id, result) =>
                if key == "id" then Some(IdJson(id)) else if key == "result" then Some(result) else None
              case ErrorResponse(_, id, error) =>
                if key == "id" then Some(NullableId(id)) else if key == "error" then Some(ErrorJson(error)) else None
            }
  {
    hide Get, Optional;
    match m
    case Request(version, id, name, params) =>
      GetOptional("params", params, key);
      GetFirst("method", String(name), Optional("params", params), key);
      GetFirst("id", IdJson(id), [("method", String(name))] + Optional("params", params), key);
      GetFirst("jsonrpc", String(version), MembersOf(m)[1..], key);
      assert MembersOf(m)[1..] == [("id", IdJson(id))] + ([("method", String(name))] + Optional("params", params));
    case Notification(version, name, params) =>
      GetOptional("params", params, key);
      GetFirst("method", String(name), Optional("params", params), key);
      GetFirst("jsonrpc", String(version), MembersOf(m)[1..], key);
      assert MembersOf(m)[1..] == [("method", String(name))] + Optional("params", params);
    case SuccessResponse(version, id, result) =>
      GetNothing(key);
      GetFirst("result", result, [], key);
      GetFirst("id", IdJson(id), [("result", result)] + [], key);
      GetFirst("jsonrpc", String(version), MembersOf(m)[1..], key);
      assert MembersOf(m)[1..] == [("id", IdJson(id))] + ([("result", result)] + []);
    case ErrorResponse(version, id, error) =>
      GetNothing(key);
      GetFirst("error", ErrorJson(error), [], key);
      GetFirst("id", NullableId(id), [("error", ErrorJson(error))] + [], key);
      GetFirst("jsonrpc", String(version), MembersOf(m)[1..], key);
      assert MembersOf(m)[1..] == [("id", NullableId(id))] + ([("error", ErrorJson(error))] + []);
  }

  lemma GetNothing(key: string)
    ensures Get([], key) == None
  {
  }

  lemma GetError(e: RpcError)
    ensures ParseError(ErrorJson(e)) == Some(if e.data == Some(Null) then e.(data := None) else e)
  {
    hide Get, Optional;
    forall key
      ensures Get(ErrorJson(e).members, key) ==
              if key == "code" then Some(Integer(e.code)) else if key == "message" then Some(String(e.message))
              else if key == "data" then e.data else None
    {
      GetOptional("data", e.data, key);
      GetFirst("message", String(e.message), Optional("data", e.data), key);
      GetFirst("code", Integer(e.code), [("message", String(e.message))] + Optional("data", e.data), key);
    }
  }

  /** An error written as an array has its fields in the order code, message, data. */
  lemma ErrorArray(code: I64, message: string, data: Json)
    ensures ParseError(Array([Integer(code), String(message)])) == Some(RpcError(code, message, None))
    ensures ParseError(Array([Integer(code), String(message), data])) ==
            Some(RpcError(code, message, if data == Null then None else Some(data)))
  {
  }

  /** What survives encoding and decoding: an error's null data becomes no data. */
  function Normal(m: Message): Message {
    if m.ErrorResponse? && m.error.data == Some(Null) then m.(error := m.error.(data := None)) else m
  }

  /** Each of the four shapes survives the wire, and no message of another version gets through. */
  lemma DecodeEncode(m: Message)
    ensures m.version == VERSION ==> DecodeValue(Encode(m)) == Ok(Normal(m))
    ensures m.version != VERSION ==> DecodeValue(Encode(m)).Err? && DecodeValue(Encode(m)).error.code == INVALID_REQUEST
  {
    hide Get, MembersOf, ParseError, ErrorJson;
    GetEncoded(m, "jsonrpc");
    GetEncoded(m, "method");
    GetEncoded(m, "id");
    match m
    case Request(_, _, _, _) => GetEncoded(m, "params");
    case Notification(_, _, _) => GetEncoded(m, "params");
    case SuccessResponse(_, _, _) =>
      GetEncoded(m, "result");
      GetEncoded(m, "error");
    case ErrorResponse(_, _, error) =>
      GetEncoded(m, "result");
      GetEncoded(m, "error");
      GetError(error);
  }

  /** What decoding gives is already normal, and the same again from its own encoding. */
  lemma DecodedIsStable(v: Json)
    requires DecodeValue(v).Ok?
    ensures var m := DecodeValue(v).value;
            m.version == VERSION && Normal(m) == m && DecodeValue(Encode(m)) == Ok(m)
  {
    DecodedIsNormal(v);
    DecodeEncode(DecodeValue(v).value);
  }

  lemma DecodedIsNormal(v: Json)
    requires DecodeValue(v).Ok?
    ensures var m := DecodeValue(v).value; m.version == VERSION && Normal(m) == m
  {
    hide Get;
  }

  /** The members that make up a message of this shape. */
  function Known(m: Message): set<string> {
    {"jsonrpc", "id", "method"} + if m.Request? || m.Notification? then {"params"} else {"result", "error"}
  }

  /**
   * Decoding drops the members that are not part of the shape and changes nothing else: the encoded
   * message has exactly the known members of the input, with the same values. Only an error's own
   * object may be written differently.
   */
  lemma DecodeKeeps(v: Json, key: string)
    requires DecodeValue(v).Ok?
    ensures var m := DecodeValue(v).value;
            (m.ErrorResponse? && key == "error") ||
            Get(MembersOf(m), key) == if key in Known(m) then Get(v.members, key) else None
  {
    hide Get, MembersOf;
    GetEncoded(DecodeValue(v).value, key);
  }

  ghost predicate SameMembers(a: Members, b: Members) {
    forall key :: Get(a, key) == Get(b, key)
  }

  lemma SameResponse(a: Members, b: Members)
    requires SameMembers(a, b)
    ensures DecodeResponse(a) == DecodeResponse(b)
  {
    hide Get, ParseError, ParseId;
  }

  /** Decoding sees an object only through its members, so their order never matters. */
  lemma OrderIrrelevant(a: Members, b: Members)
    requires SameMembers(a, b)
    ensures DecodeValue(Object(a)) == DecodeValue(Object(b))
  {
    hide Get, ParseId, DecodeResponse;
    SameResponse(a, b);
  }

  // ----- Whole messages -----

  /** The deepest the scan of a message goes. */
  function Peak(bytes: seq<Byte>): nat {
    JsonNesting.After(JsonNesting.START, bytes).peak
  }

  const TOO_DEEP := "JSON nesting depth exceeds the limit of 128"

  /** What the bytes of a message mean, given the JSON parser. */
  function Decoded(bytes: seq<Byte>, parse: seq<Byte> --> Result<Json, string>): Result<Message, RpcError>
    requires Peak(bytes) <= MAX_JSON_NESTING_DEPTH ==> parse.requires(bytes)
  {
    if Peak(bytes) > MAX_JSON_NESTING_DEPTH then Err(InvalidRequest(TOO_DEEP))
    else
      match parse(bytes)
      case Err(message) => Err(RpcError(PARSE_ERROR, message, None))
      case Ok(v) => DecodeValue(v)
  }

  /**
   * Decodes the bytes of one message. Input that nests too deep never reaches the parser, which need
   * not be defined on it.
   */
  method DecodeMessage(bytes: seq<Byte>, parse: seq<Byte> --> Result<Json, string>) returns (r: Result<Message, RpcError>)
    requires Peak(bytes) <= MAX_JSON_NESTING_DEPTH ==> parse.requires(bytes)
    ensures r == Decoded(bytes, parse)
  {
    var tooDeep := JsonNesting.ExceedsMaxNesting(bytes, MAX_JSON_NESTING_DEPTH);
    if tooDeep {
      return Err(InvalidRequest(TOO_DEEP));
    }
    var parsed := parse(bytes);
    match parsed {
      case Err(message) => return Err(RpcError(PARSE_ERROR, message, None));
      case Ok(v) => return DecodeValue(v);
    }
  }

  /** A well-formed text nested deeper than the limit is an invalid request, and a shallower one is read. */
  lemma DepthDecides(before: string, d: JsonNesting.Doc, after: string, parse: seq<Byte> -> Result<Json, string>)
    requires JsonNesting.Space(before) && JsonNesting.Good(d) && JsonNesting.Space(after)
    ensures var bytes := Utf8(before + (JsonNesting.TextOf(d) + after));
            Decoded(bytes, parse) ==
            if JsonNesting.Depth(d) > 128 then Err(RpcError(-32600, TOO_DEEP, None))
            else if parse(bytes).Err? then Err(RpcError(-32700, parse(bytes).error, None))
            else DecodeValue(parse(bytes).value)
  {
    hide DecodeValue;
    JsonNesting.NestingExact(before, d, after, MAX_JSON_NESTING_DEPTH);
  }
}
