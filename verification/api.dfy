/**
 The request/response pipeline of the API client: the API handle, the
 headers of a request, the request handed to the HTTP transport, and the
 choice `call` makes on the response (absent, inflated text, or decoded
 JSON), including the error envelope check.

 Everything the pipeline delegates to a library is a parameter: the `got`
 transport, `JSON.parse`/`JSON.stringify`, the URL and ISO date parsers,
 zlib, Buffer decoding and `qs` percent-encoding.
 */
module Api {
  import opened Js
  import opened Sanitizer
  import opened QueryString
  import opened Reviver

  // ---------------------------------------------------------------------
  // The API handle

  datatype ContentType = JsonType | GzipType

  /** The `ContentType` enum's string values. */
  function MediaType(c: ContentType): string
  {
    match c
    case JsonType => "application/json"
    case GzipType => "application/a-gzip"
  }

  /** The `API` record: a base URL and a token or `null`. */
  datatype Handle = Handle(baseUrl: string, token: Option<string>)

  /** A token counts when it is truthy: present and not empty. */
  predicate HasToken(token: Option<string>)
  {
    token.Some? && token.value != ""
  }

  /** `makeAPI(baseUrl, token)`: `token || null`. */
  function MakeApi(baseUrl: string, token: Option<string>): (api: Handle)
    ensures api.baseUrl == baseUrl
    ensures api.token.None? <==> !HasToken(token)
    ensures api.token.Some? ==> api.token == token
  {
    Handle(baseUrl, if HasToken(token) then token else None)
  }

  /** Normalising a handle's token again changes nothing. */
  lemma MakeApiIdempotent(baseUrl: string, token: Option<string>)
    ensures var api := MakeApi(baseUrl, token); MakeApi(api.baseUrl, api.token) == api
  {
  }

  // ---------------------------------------------------------------------
  // APIError

  /** `${code}` with an undefined code. */
  function CodeText(code: Option<int>): string
  {
    match code
    case None => "undefined"
    case Some(n) => DecimalText(n)
  }

  function MessageText(message: Option<string>): string
  {
    match message
    case None => "undefined"
    case Some(m) => m
  }

  /** The message `new APIError(response, code, message)` passes to `Error`. */
  function ApiErrorMessage(code: Option<int>, message: Option<string>): string
  {
    CodeText(code) + " " + MessageText(message)
  }

  /** The text before the first space. */
  function FirstWord(s: string): (w: string)
    ensures |w| <= |s| && w == s[..|w|]
    ensures ' ' !in w
    ensures |w| < |s| ==> s[|w|] == ' '
  {
    if |s| == 0 || s[0] == ' ' then "" else [s[0]] + FirstWord(s[1..])
  }

  lemma FirstWordPrefix(w: string, rest: string)
    requires ' ' !in w
    ensures FirstWord(w + " " + rest) == w
  {
    if |w| > 0 {
      assert (w + " " + rest)[1..] == w[1..] + " " + rest;
      FirstWordPrefix(w[1..], rest);
    }
  }

  /** The status code and the status message can both be read back from
      an APIError's message: the code is its first word. */
  lemma ApiErrorMessageParts(code: Option<int>, message: Option<string>)
    ensures var m := ApiErrorMessage(code, message);
            var w := FirstWord(m);
            && w == CodeText(code)
            && m == w + " " + MessageText(message)
            && (code.Some? ==> ParseDecimal(w) == code.value)
  {
    var c := CodeText(code);
    assert ' ' !in c by {
      if code.Some? {
        assert forall i :: 0 <= i < |c| ==> c[i] != ' ';
      }
    }
    FirstWordPrefix(c, MessageText(message));
    if code.Some? {
      DecimalRoundTrip(code.value);
    }
  }

  function NewApiError(response: Value, code: Option<int>, message: Option<string>): Error
  {
    ApiError(response, ApiErrorMessage(code, message))
  }

  // ---------------------------------------------------------------------
  // Headers

  const AcceptHeader := "Accept"
  const AuthorizationHeader := "authorization"
  const BearerPrefix := "Bearer "

  /** `headers(token, accept)`, with `accept` defaulting to JSON. */
  function Headers(token: Option<string>, accept: Option<ContentType>): (h: map<string, string>)
    ensures h.Keys == if HasToken(token) then {AcceptHeader, AuthorizationHeader} else {AcceptHeader}
    ensures h[AcceptHeader] == MediaType(if accept.Some? then accept.value else JsonType)
    ensures HasToken(token) ==> h[AuthorizationHeader] == BearerPrefix + token.value
  {
    var base := map[AcceptHeader := MediaType(if accept.Some? then accept.value else JsonType)];
    if HasToken(token) then base[AuthorizationHeader := BearerPrefix + token.value] else base
  }

  /** What a server reads from the headers: the bearer token, if any. */
  function BearerToken(h: map<string, string>): Option<string>
  {
    if AuthorizationHeader in h
       && |h[AuthorizationHeader]| >= |BearerPrefix|
       && h[AuthorizationHeader][..|BearerPrefix|] == BearerPrefix
    then Some(h[AuthorizationHeader][|BearerPrefix|..])
    else None
  }

  /** The headers carry the handle's token, and nothing when it has none. */
  lemma HeadersCarryToken(baseUrl: string, token: Option<string>, accept: Option<ContentType>)
    ensures BearerToken(Headers(MakeApi(baseUrl, token).token, accept)) == MakeApi(baseUrl, token).token
    ensures BearerToken(Headers(token, accept)) == (if HasToken(token) then token else None)
  {
    if HasToken(token) {
      var v := BearerPrefix + token.value;
      assert v[..|BearerPrefix|] == BearerPrefix;
      assert v[|BearerPrefix|..] == token.value;
    }
  }

  // ---------------------------------------------------------------------
  // gunzip and isNil

  /** `isNil(val)`: `null` or `undefined`. */
  predicate IsNil(val: Option<Value>)
  {
    val.None? || val == Some(Null)
  }

  datatype Zlib = Zlib(
    inflate: seq<byte> -> Option<seq<byte>>,
    /** `buffer.toString(encoding)` */
    decode: (Value, seq<byte>) -> string)

  datatype Unzipped = Bytes(bytes: seq<byte>) | Text(text: string)

  const Utf8 := Str("utf8")

  /** `gunzip(input, encoding)`: the inflated buffer, decoded only when an
      encoding is given. */
  function Gunzip(input: seq<byte>, encoding: Option<Value>, z: Zlib): (r: Result<Unzipped>)
    ensures r.Err? <==> z.inflate(input).None?
    ensures r.Err? ==> r.error == DecompressionError
    ensures r.Ok? ==> (r.value.Bytes? <==> IsNil(encoding))
    ensures r.Ok? && r.value.Bytes? ==> r.value.bytes == z.inflate(input).value
    ensures r.Ok? && r.value.Text? ==> r.value.text == z.decode(encoding.value, z.inflate(input).value)
  {
    match z.inflate(input)
    case None => Err(DecompressionError)
    case Some(unzipped) =>
      if IsNil(encoding) then Ok(Bytes(unzipped)) else Ok(Text(z.decode(encoding.value, unzipped)))
  }

  // ---------------------------------------------------------------------
  // The request

  datatype Method = Head | Get | Post | Put | Patch | Delete

  /** got's `responseType`: the default text body, or a raw Buffer. */
  datatype ResponseType = TextResponse | BufferResponse

  datatype Request = Request(
    prefixUrl: string,
    path: string,
    verb: Method,
    headers: map<string, string>,
    searchParams: Option<string>,
    body: Option<string>,
    responseType: ResponseType)

  datatype Options = Options(query: Option<Value>, body: Option<Value>, accept: Option<ContentType>)

  datatype Body = TextBody(text: string) | BufferBody(bytes: seq<byte>)

  /** What the transport does with a request: a response, or a rejection
      whose error may or may not carry a response. */
  datatype Response =
    | Received(body: Body, statusCode: Option<int>, statusMessage: Option<string>)
    | Rejected(response: Option<Body>)

  datatype Foreign = Foreign(
    got: Request -> Response,
    jsonParse: string -> Option<Value>,
    jsonStringify: Value -> string,
    parsers: Parsers,
    zlib: Zlib,
    utf8Encode: string -> seq<byte>,
    percentEncode: string -> string)

  /** `body(object)`: the JSON text of the request body, if any. */
  function RequestBody(payload: Option<Value>, stringify: Value -> string): (r: Option<string>)
    ensures r.None? <==> payload.None?
    ensures payload.Some? ==> r == Some(stringify(payload.value))
  {
    match payload
    case None => None
    case Some(o) => Some(stringify(o))
  }

  /** The options object `call` hands to `got`. Building it runs `query`,
      whose `sanitize` may throw. */
  function BuildRequest(api: Handle, path: string, verb: Method, options: Options, env: Foreign)
    : (r: Result<Request>)
    ensures r.Err? <==> options.query.Some? && Sanitize(options.query.value).Err?
    ensures r.Ok? ==> r.value.prefixUrl == api.baseUrl && r.value.path == path && r.value.verb == verb
    ensures r.Ok? ==> r.value.headers == Headers(api.token, options.accept)
    ensures r.Ok? ==> (r.value.responseType == BufferResponse <==> options.accept == Some(GzipType))
    ensures r.Ok? ==> r.value.searchParams == Query(options.query, env.percentEncode).value
    ensures r.Ok? ==> (r.value.body.None? <==> options.body.None?)
    ensures r.Ok? ==> r.value.body == RequestBody(options.body, env.jsonStringify)
  {
    match Query(options.query, env.percentEncode)
    case Err(e) => Err(e)
    case Ok(search) =>
      Ok(Request(
           api.baseUrl, path, verb,
           Headers(api.token, options.accept),
           search,
           RequestBody(options.body, env.jsonStringify),
           if options.accept == Some(GzipType) then BufferResponse else TextResponse))
  }

  // ---------------------------------------------------------------------
  // The response

  /** `if (!responseBody)`: an empty string is falsy, but a Buffer is an
      object and so is truthy even when it holds no bytes. */
  predicate BodyTruthy(b: Body)
  {
    match b
    case TextBody(s) => s != ""
    case BufferBody(_) => true
  }

  /** The body as a string: `String(buffer)` decodes UTF-8. */
  function BodyText(b: Body, env: Foreign): string
  {
    match b
    case TextBody(s) => s
    case BufferBody(bytes) => env.zlib.decode(Utf8, bytes)
  }

  /** The body as zlib input: zlib encodes a string input as UTF-8. */
  function BodyBytes(b: Body, env: Foreign): seq<byte>
  {
    match b
    case TextBody(s) => env.utf8Encode(s)
    case BufferBody(bytes) => bytes
  }

  const ErrorsKey := "errors"

  /** `json.errors && Array.isArray(json.errors)`; an array is always
      truthy, so the test is whether `errors` is an array. */
  predicate HasErrorsArray(v: Value)
  {
    Property(v, ErrorsKey).Some? && Property(v, ErrorsKey).value.Arr?
  }

  lemma ReviveKeepsErrorsArray(raw: Value, p: Parsers)
    ensures HasErrorsArray(Revive(raw, p)) <==> HasErrorsArray(raw)
  {
    if raw.Obj? {
      var fs := raw.fields;
      var gs := Revive(raw, p).fields;
      assert |gs| == |fs|;
      forall i | 0 <= i < |fs|
        ensures gs[i].key == fs[i].key && gs[i].val == Revive(fs[i].val, p)
      {
      }
      RevivedLookup(fs, gs, ErrorsKey, p);
    }
  }

  /** `json(body, response)`: parse with the reviver, then turn an error
      envelope into an APIError. `JSON.parse("null")` yields `null`, and
      reading `null.errors` throws a TypeError. */
  function Json(body: string, code: Option<int>, message: Option<string>, env: Foreign): (r: Result<Value>)
    ensures env.jsonParse(body).None? ==> r == Err(SyntaxError)
    ensures env.jsonParse(body) == Some(Null) ==> r == Err(TypeError)
    ensures r.Err? && r.error.ApiError? <==>
              env.jsonParse(body).Some? && HasErrorsArray(env.jsonParse(body).value)
    ensures r.Err? && r.error.ApiError? ==>
              r.error == NewApiError(Revive(env.jsonParse(body).value, env.parsers), code, message)
    ensures r.Ok? <==>
              && env.jsonParse(body).Some?
              && !env.jsonParse(body).value.Null?
              && !HasErrorsArray(env.jsonParse(body).value)
    ensures r.Ok? ==> r.value == Revive(env.jsonParse(body).value, env.parsers)
  {
    match env.jsonParse(body)
    case None => Err(SyntaxError)
    case Some(raw) =>
      var json := Revive(raw, env.parsers);
      ReviveKeepsErrorsArray(raw, env.parsers);
      if json.Null? then Err(TypeError)
      else if HasErrorsArray(json) then Err(NewApiError(json, code, message))
      else Ok(json)
  }

  /** An error envelope with an empty `errors` array is still an error. */
  lemma EmptyErrorsArrayIsError(body: string, code: Option<int>, message: Option<string>, env: Foreign)
    requires env.jsonParse(body) == Some(Obj([Field(ErrorsKey, Arr([]))]))
    ensures Json(body, code, message, env).Err?
    ensures Json(body, code, message, env).error.ApiError?
  {
    assert Keys([Field(ErrorsKey, Arr([]))]) == [ErrorsKey];
  }

  /** What `call` resolves to. */
  datatype Payload = Absent | Inflated(text: string) | Parsed(json: Value)

  /** The response the transport gives, when the request could be built. */
  function Sent(api: Handle, path: string, verb: Method, options: Options, env: Foreign): Option<Response>
  {
    var req := BuildRequest(api, path, verb, options, env);
    if req.Ok? then Some(env.got(req.value)) else None
  }

  /** `call(api, path, verb, options)`: one request, then the result
      branch. An exception thrown inside the `try` (by `sanitize`, or by the
      transport) is caught and rethrown as `new Error(error.response.body)`;
      an error with no `response` makes that expression throw a TypeError. */
  function Call(api: Handle, path: string, verb: Method, options: Options, env: Foreign): (r: Result<Payload>)
    ensures Sent(api, path, verb, options, env).None? ==> r == Err(TypeError)
    ensures Sent(api, path, verb, options, env) == Some(Rejected(None)) ==> r == Err(TypeError)
    ensures r.Err? && r.error.TransportError? <==>
              Sent(api, path, verb, options, env).Some? && Sent(api, path, verb, options, env).value.Rejected?
              && Sent(api, path, verb, options, env).value.response.Some?
    ensures r == Ok(Absent) <==>
              Sent(api, path, verb, options, env).Some? && Sent(api, path, verb, options, env).value.Received?
              && !BodyTruthy(Sent(api, path, verb, options, env).value.body)
    ensures r.Ok? && r.value.Inflated? ==> options.accept == Some(GzipType)
    ensures r.Err? && r.error.DecompressionError? ==> options.accept == Some(GzipType)
    ensures r.Ok? && r.value.Parsed? ==> options.accept != Some(GzipType)
    ensures r.Err? && (r.error.ApiError? || r.error.SyntaxError?) ==> options.accept != Some(GzipType)
    ensures var sent := Sent(api, path, verb, options, env);
            sent.Some? && sent.value.Rejected? && sent.value.response.Some? ==>
              r == Err(TransportError(BodyText(sent.value.response.value, env)))
    ensures var sent := Sent(api, path, verb, options, env);
            sent.Some? && sent.value.Received? && BodyTruthy(sent.value.body) && options.accept == Some(GzipType) ==>
              var inflated := env.zlib.inflate(BodyBytes(sent.value.body, env));
              && (inflated.None? ==> r == Err(DecompressionError))
              && (inflated.Some? ==> r == Ok(Inflated(env.zlib.decode(Utf8, inflated.value))))
    ensures var sent := Sent(api, path, verb, options, env);
            sent.Some? && sent.value.Received? && BodyTruthy(sent.value.body) && options.accept != Some(GzipType) ==>
              var j := Json(BodyText(sent.value.body, env), sent.value.statusCode, sent.value.statusMessage, env);
              && (j.Err? ==> r == Err(j.error))
              && (j.Ok? ==> r == Ok(Parsed(j.value)))
  {
    match BuildRequest(api, path, verb, options, env)
    case Err(_) => Err(TypeError)
    case Ok(req) =>
      match env.got(req)
      case Rejected(None) => Err(TypeError)
      case Rejected(Some(b)) => Err(TransportError(BodyText(b, env)))
      case Received(b, code, message) =>
        if !BodyTruthy(b) then Ok(Absent)
        else if options.accept == Some(GzipType) then
          var g := Gunzip(BodyBytes(b, env), Some(Utf8), env.zlib);
          if g.Err? then Err(g.error) else Ok(Inflated(g.value.text))
        else
          var j := Json(BodyText(b, env), code, message, env);
          if j.Err? then Err(j.error) else Ok(Parsed(j.value))
  }

  /** A GZIP call never consults the JSON parser or the reviver. */
  lemma GzipCallIgnoresJson(api: Handle, path: string, verb: Method, options: Options, env: Foreign,
                            jsonParse: string -> Option<Value>, parsers: Parsers)
    requires options.accept == Some(GzipType)
    ensures Call(api, path, verb, options, env)
         == Call(api, path, verb, options, env.(jsonParse := jsonParse, parsers := parsers))
  {
  }

  /** A JSON call never consults the inflater. */
  lemma JsonCallIgnoresInflate(api: Handle, path: string, verb: Method, options: Options, env: Foreign,
                               inflate: seq<byte> -> Option<seq<byte>>)
    requires options.accept != Some(GzipType)
    ensures Call(api, path, verb, options, env)
         == Call(api, path, verb, options, env.(zlib := env.zlib.(inflate := inflate)))
  {
  }

  /** The empty-body test is truthiness: an empty GZIP response arrives as
      an empty Buffer, which is truthy, so it goes to the inflater instead
      of resolving to an absent result. */
  lemma EmptyGzipBodyIsInflated(api: Handle, path: string, verb: Method, options: Options, env: Foreign)
    requires options.accept == Some(GzipType)
    requires Sent(api, path, verb, options, env).Some?
    requires Sent(api, path, verb, options, env).value.Received?
    requires Sent(api, path, verb, options, env).value.body == BufferBody([])
    ensures Call(api, path, verb, options, env) != Ok(Absent)
    ensures env.zlib.inflate([]).None? ==> Call(api, path, verb, options, env) == Err(DecompressionError)
  {
  }
}
