/** `call_api` of rest.py (lines 40-109) with the cache switches of lines 12-28:
    key resolution, the choice of signing path, the GET-only response cache and
    the reading of the JSON envelope. The process-wide defaults, `AUTH_HANDLER`
    and `CACHE` are threaded through as an explicit context; the HTTP transport
    is a parameter. */
module Dispatch {
  import opened Wrappers
  import opened Dicts
  import opened PyValue
  import opened Signer
  import opened OAuth
  import opened Handlers

  /** A request as the transport sees it; `upload` is the path of a file sent along. */
  datatype HttpRequest = HttpRequest(post: bool, url: string, fields: Dict<Value>, upload: Option<string>)

  /** What the transport answers: the status and the decoded JSON body, None when the
      body is not JSON. */
  datatype Response = Response(status: int, body: Option<Value>)

  type Cache = map<string, Response>

  /** `requests.post` / `requests.get`; a connection failure is an error. */
  type Transport = HttpRequest -> Result<Response, Error>

  /** The module state `call_api` reads: the default keys, `AUTH_HANDLER` and `CACHE`. */
  datatype Context = Context(defaults: ApiKeys, handler: Option<Handler>, cache: Option<Cache>)

  /** The arguments of one `call_api`. */
  datatype Call = Call(apiMethod: string, apiKey: Value, apiSecret: Value, signed: bool, authed: bool,
                       httpPost: bool, handler: Option<Handler>, kwargs: Dict<Value>)

  /** What a call leaves behind: its result, the cache after it and the requests sent. */
  datatype Outcome = Outcome(result: Result<Value, Error>, cache: Option<Cache>, sent: seq<HttpRequest>)

  const NoKeysError := IpernityError("No Ipernity API keys been set")
  const NoHandlerError := IpernityError("no auth_handler provided")

  const ApiBase := "http://api.ipernity.com/api/"

  /** The endpoint of a method, which is also its cache key: no query string. */
  function ApiUrl(apiMethod: string): (r: string)
    ensures |r| == |ApiBase| + |apiMethod| + 5
    ensures r[..|ApiBase|] == ApiBase && r[|r| - 5..] == "/json"
    ensures r[|ApiBase|..|r| - 5] == apiMethod
  {
    ApiBase + apiMethod + "/json"
  }

  /** Two methods never share an endpoint, so never share a cache entry. */
  lemma ApiUrlInjective(m1: string, m2: string)
    ensures ApiUrl(m1) == ApiUrl(m2) <==> m1 == m2
  {
    if ApiUrl(m1) == ApiUrl(m2) {
      assert m1 == ApiUrl(m1)[|ApiBase|..|ApiUrl(m1)| - 5];
    }
  }

  // ---- state switches -----------------------------------------------------

  /** `enable_cache(cache_object)`: the given cache, or a new empty one. */
  function EnableCache(ctx: Context, given: Option<Cache>): (r: Context)
    ensures r.cache.Some? && r.defaults == ctx.defaults && r.handler == ctx.handler
    ensures given.Some? ==> r.cache == given
    ensures given.None? ==> r.cache == Some(map[])
  {
    ctx.(cache := Some(given.GetOr(map[])))
  }

  /** `disable_cache()`. */
  function DisableCache(ctx: Context): (r: Context)
    ensures r.cache.None? && r.defaults == ctx.defaults && r.handler == ctx.handler
  {
    ctx.(cache := None)
  }

  /** `set_auth_handler(handler)`. */
  function SetAuthHandler(ctx: Context, h: Option<Handler>): (r: Context)
    ensures r.handler == h && r.defaults == ctx.defaults && r.cache == ctx.cache
  {
    ctx.(handler := h)
  }

  // ---- key resolution and signing path ----------------------------------

  /** The key pair a call uses. */
  datatype KeyPair = KeyPair(key: Value, secret: Value)

  /** An explicit truthy key or secret wins over the module default; an empty result
      is an error. */
  function ResolveKeys(ctx: Context, call: Call): (r: Result<KeyPair, Error>)
    ensures r.Ok? <==> Truthy(Or(call.apiKey, ctx.defaults.apiKey)) && Truthy(Or(call.apiSecret, ctx.defaults.apiSecret))
    ensures r.Err? ==> r.error == NoKeysError
    ensures r.Ok? ==> r.value.key == (if Truthy(call.apiKey) then call.apiKey else ctx.defaults.apiKey)
    ensures r.Ok? ==> r.value.secret == (if Truthy(call.apiSecret) then call.apiSecret else ctx.defaults.apiSecret)
  {
    var key := if Truthy(call.apiKey) then call.apiKey else ctx.defaults.apiKey;
    var secret := if Truthy(call.apiSecret) then call.apiSecret else ctx.defaults.apiSecret;
    if !Truthy(key) || !Truthy(secret) then Err(NoKeysError) else Ok(KeyPair(key, secret))
  }

  /** How a request is signed. */
  datatype Path = Unsigned | SharedSecret(withToken: bool) | OAuthSigned

  /** `auth_handler or auth.AUTH_HANDLER`: the call's handler wins; there is none only
      when neither is set. */
  function ActiveHandler(ctx: Context, call: Call): (r: Option<Handler>)
    ensures call.handler.Some? ==> r == call.handler
    ensures call.handler.None? ==> r == ctx.handler
    ensures r.None? <==> call.handler.None? && ctx.handler.None?
  {
    if call.handler.Some? then call.handler else ctx.handler
  }

  /** The branch of lines 69-77: no handler for an authenticated call is an error; an
      OAuth handler always signs, whatever `signed` and `authed` say; otherwise
      `signed` or `authed` selects the shared-secret signature. */
  function SigningPath(call: Call, handler: Option<Handler>): (r: Result<Path, Error>)
    ensures call.authed && handler.None? <==> r.Err?
    ensures r.Err? ==> r.error == NoHandlerError
    ensures r == Ok(OAuthSigned) <==> handler.Some? && handler.value.OAuthHandler?
    ensures (r.Ok? && r.value.SharedSecret?)
            <==> ((call.signed || call.authed) && !(handler.Some? && handler.value.OAuthHandler?)
                  && !(call.authed && handler.None?))
    ensures r.Ok? && r.value.SharedSecret? ==> r.value.withToken == call.authed
    ensures r == Ok(Unsigned) <==> !call.signed && !call.authed && !(handler.Some? && handler.value.OAuthHandler?)
  {
    if call.authed && handler.None? then Err(NoHandlerError)
    else if handler.Some? && handler.value.OAuthHandler? then Ok(OAuthSigned)
    else if call.signed || call.authed then Ok(SharedSecret(call.authed))
    else Ok(Unsigned)
  }

  /** The parameters before signing: the caller's, with `api_key`, cleaned. */
  function BaseFields(key: Value, kwargs: Dict<Value>): (r: Dict<Value>)
    ensures "api_key" in ToMap(r) && ToMap(r)["api_key"] == CleanValue(key)
    ensures forall k :: k in ToMap(r) <==> k == "api_key" || k in ToMap(kwargs)
    ensures forall k :: k in ToMap(kwargs) && k != "api_key" ==> ToMap(r)[k] == CleanValue(ToMap(kwargs)[k])
  {
    CleanParamsToMap(Put(kwargs, "api_key", key));
    CleanParams(Put(kwargs, "api_key", key))
  }

  /** The shared-secret branch: `auth_token` from the handler when authenticated, then
      `api_sig` over everything else with the method. */
  function SharedSign(md5: seq<Byte> -> Digest16, secret: Value, apiMethod: string,
                      handler: Option<Handler>, withToken: bool, params: Dict<Value>): (r: Result<Dict<Value>, Error>)
    requires withToken ==> handler.Some?
    ensures r.Ok? <==> secret.PyStr? && (withToken ==> Index(handler.value.creds.authToken, "token").Ok?)
    ensures withToken && Index(handler.value.creds.authToken, "token").Err? ==>
              r == Err(Index(handler.value.creds.authToken, "token").error)
    ensures (withToken ==> Index(handler.value.creds.authToken, "token").Ok?) && !secret.PyStr? ==>
              r == Err(TypeError("a str is required"))
    ensures r.Ok? ==> var unsigned := if withToken then Put(params, "auth_token", Index(handler.value.creds.authToken, "token").value)
                                       else params;
                      ToMap(r.value) == ToMap(unsigned)["api_sig" := PyStr(ApiSig(md5, secret.s, unsigned, Some(apiMethod)))]
  {
    var p :- if withToken then
               var token :- Index(handler.value.creds.authToken, "token");
               Ok(Put(params, "auth_token", token))
             else Ok(params);
    var s :- AsStr(secret);
    Ok(Put(p, "api_sig", PyStr(ApiSig(md5, s, p, Some(apiMethod)))))
  }

  /** The fields of the request `call_api` sends, or the error it raises first. */
  function Prepare(crypto: Crypto, clock: Clock, ctx: Context, call: Call): (r: Result<Dict<Value>, Error>)
    ensures ResolveKeys(ctx, call).Err? ==> r == Err(NoKeysError)
    ensures ResolveKeys(ctx, call).Ok? && SigningPath(call, ActiveHandler(ctx, call)).Err? ==> r == Err(NoHandlerError)
  {
    var keys :- ResolveKeys(ctx, call);
    var params := BaseFields(keys.key, call.kwargs);
    var handler := ActiveHandler(ctx, call);
    var path :- SigningPath(call, handler);
    match path
    case Unsigned => Ok(params)
    case OAuthSigned => SignParams(crypto, clock, handler.value, ApiUrl(call.apiMethod), params, call.httpPost)
    case SharedSecret(withToken) => SharedSign(crypto.md5, keys.secret, call.apiMethod, handler, withToken, params)
  }

  // ---- transport and cache ----------------------------------------------

  /** `bool(response)` for a requests Response: false for a 4xx or 5xx status. */
  predicate ResponseOk(resp: Response) {
    !(400 <= resp.status < 600)
  }

  /** The request for the prepared fields; a POST with `file` logs `'sending file ' + path`,
      which needs the path to be a str. */
  function BuildRequest(post: bool, url: string, fields: Dict<Value>): (r: Result<HttpRequest, Error>)
    ensures r.Ok? ==> r.value.post == post && r.value.url == url && r.value.fields == fields
    ensures r.Ok? ==> (r.value.upload.Some? <==> post && "file" in ToMap(fields))
    ensures r.Ok? && r.value.upload.Some? ==> PyStr(r.value.upload.value) == ToMap(fields)["file"]
    ensures r.Err? <==> post && "file" in ToMap(fields) && !ToMap(fields)["file"].PyStr?
  {
    if post && "file" in ToMap(fields) then
      var path :- AsStr(ToMap(fields)["file"]);
      Ok(HttpRequest(true, url, fields, Some(path)))
    else Ok(HttpRequest(post, url, fields, None))
  }

  /** The response and cache after sending one request. */
  datatype Exchange = Exchange(response: Result<Response, Error>, cache: Option<Cache>, sent: seq<HttpRequest>)

  /** Lines 80-95: a POST goes out and never touches the cache; a GET with a cache
      reads the entry under the URL, goes out when that entry is missing or falsy, and
      stores the response only when the URL had no entry. */
  function Transmit(send: Transport, cache: Option<Cache>, req: HttpRequest): (r: Exchange)
    ensures req.post || cache.None? ==> r == Exchange(send(req), cache, [req])
    ensures !req.post && cache.Some? ==> r.cache.Some? && (req.url in r.cache.value || r.response.Err?)
    ensures CacheHit(cache, req) ==> r == Exchange(Ok(cache.value[req.url]), cache, [])
    ensures !CacheHit(cache, req) ==> r.response == send(req) && r.sent == [req]
  {
    if req.post then Exchange(send(req), cache, [req])
    else match cache
      case None => Exchange(send(req), None, [req])
      case Some(c) =>
        if req.url in c && ResponseOk(c[req.url]) then Exchange(Ok(c[req.url]), cache, [])
        else
          var resp := send(req);
          if req.url in c || resp.Err? then Exchange(resp, cache, [req])
          else Exchange(resp, Some(c[req.url := resp.value]), [req])
  }

  /** A GET whose URL has a truthy entry in the cache: it is answered from there. */
  predicate CacheHit(cache: Option<Cache>, req: HttpRequest) {
    !req.post && cache.Some? && req.url in cache.value && ResponseOk(cache.value[req.url])
  }

  /** A cached entry that is truthy answers the GET: nothing goes out, the cache stays. */
  lemma CacheHitSendsNothing(send: Transport, c: Cache, req: HttpRequest)
    requires !req.post && req.url in c && ResponseOk(c[req.url])
    ensures Transmit(send, Some(c), req) == Exchange(Ok(c[req.url]), Some(c), [])
  {
  }

  /** The cache only grows, and only under the request's URL, and an existing entry is
      never overwritten. */
  lemma CacheStoresOnlyWhenAbsent(send: Transport, c: Cache, req: HttpRequest)
    ensures var r := Transmit(send, Some(c), req);
            && r.cache.Some?
            && (req.post || req.url in c ==> r.cache == Some(c))
            && (!req.post && req.url !in c && send(req).Ok? ==> r.cache == Some(c[req.url := send(req).value]))
            && (forall u :: u in r.cache.value && u != req.url ==> u in c && r.cache.value[u] == c[u])
  {
  }

  /** An error response stored in the cache does not answer later GETs: they go out
      again, and the stored entry is kept. */
  lemma CachedErrorRefetches(send: Transport, c: Cache, req: HttpRequest)
    requires !req.post && req.url in c && !ResponseOk(c[req.url])
    ensures Transmit(send, Some(c), req) == Exchange(send(req), Some(c), [req])
  {
  }

  // ---- the envelope -------------------------------------------------------

  /** The message of the API error: the server's message, then the method and the
      parameters sent. */
  function ErrorMessage(message: string, apiMethod: string, fields: Dict<Value>): (r: string)
    ensures |r| >= |message| && r[..|message|] == message
    ensures |r| >= |Show(PyDict(fields))| && r[|r| - |Show(PyDict(fields))|..] == Show(PyDict(fields))
  {
    message + "\nAPI: " + apiMethod + " \nPayload: " + Show(PyDict(fields))
  }

  /** Lines 97-109: a 4xx or 5xx status fails before the body is read; an envelope
      whose `api.status` is "error" raises the API error with `int(code)`; any other
      envelope is the result, unchanged. */
  function Interpret(apiMethod: string, fields: Dict<Value>, resp: Response): (r: Result<Value, Error>)
    ensures 400 <= resp.status < 600 ==> r == Err(HTTPError(resp.status))
    ensures ResponseOk(resp) && resp.body.None? ==> r == Err(JSONDecodeError)
    ensures r.Ok? ==> ResponseOk(resp) && resp.body == Some(r.value)
    ensures r.Ok? ==> Index(r.value, "api").Ok? && Index(Index(r.value, "api").value, "status").Ok?
                      && Index(Index(r.value, "api").value, "status").value != PyStr("error")
  {
    if !ResponseOk(resp) then Err(HTTPError(resp.status))
    else match resp.body
      case None => Err(JSONDecodeError)
      case Some(body) =>
        var api :- Index(body, "api");
        var status :- Index(api, "status");
        if status == PyStr("error") then
          var message :- Index(api, "message");
          var text :- AsStr(message);
          var code :- Index(api, "code");
          var n :- ToInt(code);
          Err(IpernityAPIError(n, ErrorMessage(text, apiMethod, fields)))
        else Ok(body)
  }

  /** An API error is raised only for an envelope whose status is "error", and carries
      `int(code)` and the message with the method and payload appended. */
  lemma InterpretApiError(apiMethod: string, fields: Dict<Value>, resp: Response)
    requires Interpret(apiMethod, fields, resp).Err? && Interpret(apiMethod, fields, resp).error.IpernityAPIError?
    ensures var e := Interpret(apiMethod, fields, resp).error;
            && ResponseOk(resp) && resp.body.Some? && Index(resp.body.value, "api").Ok?
            && var api := Index(resp.body.value, "api").value;
               && Index(api, "status") == Ok(PyStr("error"))
               && Index(api, "message").Ok? && Index(api, "message").value.PyStr?
               && e.message == ErrorMessage(Index(api, "message").value.s, apiMethod, fields)
               && Index(api, "code").Ok? && ToInt(Index(api, "code").value) == Ok(e.code)
  {
  }

  /** The error envelope of a given message and code. */
  lemma ErrorEnvelopeFields(message: string, code: int)
    ensures var api := PyDict([("status", PyStr("error")), ("message", PyStr(message)), ("code", PyStr(IntStr(code)))]);
            && Index(PyDict([("api", api)]), "api") == Ok(api)
            && Index(api, "status") == Ok(PyStr("error"))
            && Index(api, "message") == Ok(PyStr(message))
            && Index(api, "code") == Ok(PyStr(IntStr(code)))
            && ToInt(PyStr(IntStr(code))) == Ok(code)
  {
    var api := PyDict([("status", PyStr("error")), ("message", PyStr(message)), ("code", PyStr(IntStr(code)))]);
    SingleEntryMap("api", api);
    IndexAt(api.entries, 0);
    IndexAt(api.entries, 1);
    IndexAt(api.entries, 2);
    ParseIntStr(code);
  }

  /** In a dict without repeated keys, indexing by an entry's key gives its value. */
  lemma IndexAt(d: Dict<Value>, i: int)
    requires Distinct(d) && 0 <= i < |d|
    ensures Index(PyDict(d), d[i].0) == Ok(d[i].1)
  {
    EntryInMap(d, i);
  }

  /** A well-formed success envelope comes back whole. */
  lemma SuccessEnvelopeReturned(apiMethod: string, fields: Dict<Value>, resp: Response, status: Value)
    requires ResponseOk(resp) && resp.body.Some?
    requires Index(resp.body.value, "api").Ok?
    requires Index(Index(resp.body.value, "api").value, "status") == Ok(status)
    requires status != PyStr("error")
    ensures Interpret(apiMethod, fields, resp) == Ok(resp.body.value)
  {
  }

  /** An error envelope with a str message and a numeric code raises the API error. */
  lemma ErrorEnvelopeRaises(apiMethod: string, fields: Dict<Value>, status: int,
                            message: string, code: int)
    requires !(400 <= status < 600)
    ensures var api := PyDict([("status", PyStr("error")), ("message", PyStr(message)), ("code", PyStr(IntStr(code)))]);
            Interpret(apiMethod, fields, Response(status, Some(PyDict([("api", api)]))))
            == Err(IpernityAPIError(code, ErrorMessage(message, apiMethod, fields)))
  {
    ErrorEnvelopeFields(message, code);
  }

  // ---- call_api -----------------------------------------------------------

  /** Sends prepared fields and reads the answer. */
  function Deliver(send: Transport, cache: Option<Cache>, call: Call, fields: Dict<Value>): (r: Outcome)
    ensures |r.sent| <= 1
    ensures |r.sent| == 1 ==> && r.sent[0].url == ApiUrl(call.apiMethod)
                              && r.sent[0].post == call.httpPost
                              && r.sent[0].fields == fields
    ensures call.httpPost ==> r.cache == cache
    ensures BuildRequest(call.httpPost, ApiUrl(call.apiMethod), fields).Err? ==>
              r == Outcome(Err(BuildRequest(call.httpPost, ApiUrl(call.apiMethod), fields).error), cache, [])
  {
    match BuildRequest(call.httpPost, ApiUrl(call.apiMethod), fields)
    case Err(e) => Outcome(Err(e), cache, [])
    case Ok(req) =>
      var x := Transmit(send, cache, req);
      match x.response
      case Err(e) => Outcome(Err(e), x.cache, x.sent)
      case Ok(resp) => Outcome(Interpret(call.apiMethod, fields, resp), x.cache, x.sent)
  }

  /** `call_api(...)`: prepare the fields, send them (through the cache for a GET),
      read the envelope. */
  function CallApi(crypto: Crypto, clock: Clock, send: Transport, ctx: Context, call: Call): (r: Outcome)
    ensures Prepare(crypto, clock, ctx, call).Err? ==> r == Outcome(Err(Prepare(crypto, clock, ctx, call).error), ctx.cache, [])
    ensures |r.sent| <= 1
    ensures |r.sent| == 1 ==> && Prepare(crypto, clock, ctx, call).Ok?
                              && r.sent[0].url == ApiUrl(call.apiMethod)
                              && r.sent[0].post == call.httpPost
                              && r.sent[0].fields == Prepare(crypto, clock, ctx, call).value
    ensures call.httpPost ==> r.cache == ctx.cache
  {
    match Prepare(crypto, clock, ctx, call)
    case Err(e) => Outcome(Err(e), ctx.cache, [])
    case Ok(fields) => Deliver(send, ctx.cache, call, fields)
  }

  /** What a prepared call answers: a truthy cached entry is read as if it had just
      arrived, with nothing sent; otherwise the one request goes out and its answer (or
      its connection error) is read; a GET with a cache stores a fresh answer only when
      its URL had no entry. */
  lemma CallApiAnswers(crypto: Crypto, clock: Clock, send: Transport, ctx: Context, call: Call)
    requires Prepare(crypto, clock, ctx, call).Ok?
    requires BuildRequest(call.httpPost, ApiUrl(call.apiMethod), Prepare(crypto, clock, ctx, call).value).Ok?
    ensures var fields := Prepare(crypto, clock, ctx, call).value;
            var req := BuildRequest(call.httpPost, ApiUrl(call.apiMethod), fields).value;
            var r := CallApi(crypto, clock, send, ctx, call);
            && (CacheHit(ctx.cache, req) ==>
                  r == Outcome(Interpret(call.apiMethod, fields, ctx.cache.value[req.url]), ctx.cache, []))
            && (!CacheHit(ctx.cache, req) ==>
                  && r.sent == [req]
                  && r.result == (if send(req).Err? then Err(send(req).error)
                                  else Interpret(call.apiMethod, fields, send(req).value)))
            && (r.cache != ctx.cache ==>
                  && !req.post && ctx.cache.Some? && req.url !in ctx.cache.value && send(req).Ok?
                  && r.cache == Some(ctx.cache.value[req.url := send(req).value]))
  {
    var fields := Prepare(crypto, clock, ctx, call).value;
    var req := BuildRequest(call.httpPost, ApiUrl(call.apiMethod), fields).value;
    if ctx.cache.Some? {
      CacheStoresOnlyWhenAbsent(send, ctx.cache.value, req);
    }
  }

  /** Without a key or a secret nothing is sent and the cache is left alone
      (tests/rest.py:27-30). */
  lemma MissingKeysSendNothing(crypto: Crypto, clock: Clock, send: Transport, ctx: Context, call: Call)
    requires !Truthy(Or(call.apiKey, ctx.defaults.apiKey)) || !Truthy(Or(call.apiSecret, ctx.defaults.apiSecret))
    ensures CallApi(crypto, clock, send, ctx, call) == Outcome(Err(NoKeysError), ctx.cache, [])
  {
  }

  /** An authenticated call with no handler anywhere fails before sending. */
  lemma AuthedWithoutHandlerFails(crypto: Crypto, clock: Clock, send: Transport, ctx: Context, call: Call)
    requires Truthy(Or(call.apiKey, ctx.defaults.apiKey)) && Truthy(Or(call.apiSecret, ctx.defaults.apiSecret))
    requires call.authed && call.handler.None? && ctx.handler.None?
    ensures CallApi(crypto, clock, send, ctx, call) == Outcome(Err(NoHandlerError), ctx.cache, [])
  {
  }

  /** An unsigned call sends the caller's parameters, cleaned, with the resolved
      `api_key` and nothing else. */
  lemma UnsignedFields(crypto: Crypto, clock: Clock, ctx: Context, call: Call)
    requires ResolveKeys(ctx, call).Ok?
    requires SigningPath(call, ActiveHandler(ctx, call)) == Ok(Unsigned)
    ensures var f := Prepare(crypto, clock, ctx, call);
            && f.Ok?
            && ToMap(f.value)["api_key"] == CleanValue(ResolveKeys(ctx, call).value.key)
            && (forall k :: k in ToMap(f.value) <==> k == "api_key" || k in ToMap(call.kwargs))
  {
  }

  /** The three signing branches of `Prepare`, once the keys are resolved. */
  lemma PrepareBranches(crypto: Crypto, clock: Clock, ctx: Context, call: Call)
    requires ResolveKeys(ctx, call).Ok?
    ensures var keys := ResolveKeys(ctx, call).value;
            var handler := ActiveHandler(ctx, call);
            var params := BaseFields(keys.key, call.kwargs);
            var r := Prepare(crypto, clock, ctx, call);
            && (SigningPath(call, handler) == Ok(Unsigned) ==> r == Ok(params))
            && (SigningPath(call, handler) == Ok(OAuthSigned) ==>
                  r == SignParams(crypto, clock, handler.value, ApiUrl(call.apiMethod), params, call.httpPost))
            && (SigningPath(call, handler).Ok? && SigningPath(call, handler).value.SharedSecret? ==>
                  r == SharedSign(crypto.md5, keys.secret, call.apiMethod, handler, call.authed, params))
  {
    var path := SigningPath(call, ActiveHandler(ctx, call));
    if path.Ok? {
      match path.value
      case Unsigned =>
      case OAuthSigned =>
      case SharedSecret(_) =>
    }
  }

  /** A call through an OAuth handler sends exactly what `sign_params` returns for the
      cleaned parameters, whatever `signed` and `authed` say. */
  lemma OAuthFields(crypto: Crypto, clock: Clock, ctx: Context, call: Call)
    requires ResolveKeys(ctx, call).Ok?
    requires ActiveHandler(ctx, call).Some? && ActiveHandler(ctx, call).value.OAuthHandler?
    ensures Prepare(crypto, clock, ctx, call)
            == SignParams(crypto, clock, ActiveHandler(ctx, call).value, ApiUrl(call.apiMethod),
                          BaseFields(ResolveKeys(ctx, call).value.key, call.kwargs), call.httpPost)
  {
    PrepareBranches(crypto, clock, ctx, call);
  }

  /** The shared-secret signature is recomputable from the fields it is sent with:
      removing `api_sig` leaves exactly what was signed. */
  lemma SharedSignRecomputable(md5: seq<Byte> -> Digest16, secret: Value, apiMethod: string,
                               handler: Option<Handler>, withToken: bool, params: Dict<Value>)
    requires withToken ==> handler.Some?
    requires "api_sig" !in Keys(params)
    ensures var r := SharedSign(md5, secret, apiMethod, handler, withToken, params);
            r.Ok? ==> && "api_sig" in ToMap(r.value)
                      && ToMap(r.value)["api_sig"] == PyStr(ApiSig(md5, secret.s, Del(r.value, "api_sig"), Some(apiMethod)))
  {
    var r := SharedSign(md5, secret, apiMethod, handler, withToken, params);
    if r.Ok? {
      var p := if withToken then Put(params, "auth_token", Index(handler.value.creds.authToken, "token").value)
               else params;
      assert "api_sig" !in Keys(p);
      var sig := PyStr(ApiSig(md5, secret.s, p, Some(apiMethod)));
      assert r.value == Put(p, "api_sig", sig);
      DelUndoesPut(p, "api_sig", sig);
    }
  }

  /** The fields of a shared-secret signature: `api_key` as given, the handler's token
      when asked for, and an `api_sig` recomputable from the rest. */
  lemma SharedSignFields(md5: seq<Byte> -> Digest16, secret: Value, apiMethod: string,
                         handler: Option<Handler>, withToken: bool, params: Dict<Value>)
    requires withToken ==> handler.Some?
    requires "api_sig" !in Keys(params)
    requires "api_key" in ToMap(params)
    ensures var r := SharedSign(md5, secret, apiMethod, handler, withToken, params);
            r.Ok? ==> && "api_key" in ToMap(r.value) && ToMap(r.value)["api_key"] == ToMap(params)["api_key"]
                      && (withToken ==> && "auth_token" in ToMap(r.value)
                                        && ToMap(r.value)["auth_token"] == Index(handler.value.creds.authToken, "token").value)
                      && "api_sig" in ToMap(r.value)
                      && ToMap(r.value)["api_sig"] == PyStr(ApiSig(md5, secret.s, Del(r.value, "api_sig"), Some(apiMethod)))
  {
    SharedSignRecomputable(md5, secret, apiMethod, handler, withToken, params);
    var r := SharedSign(md5, secret, apiMethod, handler, withToken, params);
    if r.Ok? {
      var token := if withToken then Index(handler.value.creds.authToken, "token").value else PyNone;
      var unsigned := if withToken then Put(params, "auth_token", token) else params;
      var sig := PyStr(ApiSig(md5, secret.s, unsigned, Some(apiMethod)));
      SignedMapFacts(ToMap(params), withToken, token, sig, ToMap(r.value));
    }
  }

  /** The map algebra behind `SharedSignFields`. */
  lemma SignedMapFacts(params: map<string, Value>, withToken: bool, token: Value, sig: Value,
                       m: map<string, Value>)
    requires "api_key" in params
    requires m == (if withToken then params["auth_token" := token] else params)["api_sig" := sig]
    ensures "api_key" in m && m["api_key"] == params["api_key"]
    ensures withToken ==> "auth_token" in m && m["auth_token"] == token
  {
  }

  /** Which fields a shared-secret call sends: `api_key`, `api_sig`, the token when
      authenticated, and the caller's parameters, cleaned, where none of those overrides
      them. */
  lemma SharedSecretKeys(crypto: Crypto, clock: Clock, ctx: Context, call: Call)
    requires ResolveKeys(ctx, call).Ok?
    requires SigningPath(call, ActiveHandler(ctx, call)).Ok?
    requires SigningPath(call, ActiveHandler(ctx, call)).value.SharedSecret?
    requires Prepare(crypto, clock, ctx, call).Ok?
    ensures var f := ToMap(Prepare(crypto, clock, ctx, call).value);
            var kw := ToMap(call.kwargs);
            && (forall k :: k in f <==> k == "api_key" || k == "api_sig" || k in kw || (k == "auth_token" && call.authed))
            && (forall k :: k in kw && k != "api_key" && k != "api_sig" && !(k == "auth_token" && call.authed) ==>
                              f[k] == CleanValue(kw[k]))
  {
    var keys := ResolveKeys(ctx, call).value;
    var handler := ActiveHandler(ctx, call);
    var params := BaseFields(keys.key, call.kwargs);
    PrepareBranches(crypto, clock, ctx, call);
    var r := SharedSign(crypto.md5, keys.secret, call.apiMethod, handler, call.authed, params);
    assert Prepare(crypto, clock, ctx, call) == r;
    var token := if call.authed then Index(handler.value.creds.authToken, "token").value else PyNone;
    var unsigned := if call.authed then Put(params, "auth_token", token) else params;
    var sig := PyStr(ApiSig(crypto.md5, keys.secret.s, unsigned, Some(call.apiMethod)));
    SharedKeysMap(ToMap(call.kwargs), ToMap(params), call.authed, token, sig, ToMap(r.value));
  }

  /** The map algebra behind `SharedSecretKeys`. */
  lemma SharedKeysMap(kw: map<string, Value>, base: map<string, Value>, authed: bool, token: Value,
                      sig: Value, f: map<string, Value>)
    requires forall k :: k in base <==> k == "api_key" || k in kw
    requires forall k :: k in kw && k != "api_key" ==> base[k] == CleanValue(kw[k])
    requires f == (if authed then base["auth_token" := token] else base)["api_sig" := sig]
    ensures forall k :: k in f <==> k == "api_key" || k == "api_sig" || k in kw || (k == "auth_token" && authed)
    ensures forall k :: k in kw && k != "api_key" && k != "api_sig" && !(k == "auth_token" && authed) ==>
                          f[k] == CleanValue(kw[k])
  {
  }

  /** A shared-secret call carries `api_key`, the handler's token when authenticated,
      and an `api_sig` the service can recompute from the other fields and the method. */
  lemma SharedSecretFields(crypto: Crypto, clock: Clock, ctx: Context, call: Call)
    requires ResolveKeys(ctx, call).Ok?
    requires SigningPath(call, ActiveHandler(ctx, call)).Ok?
    requires SigningPath(call, ActiveHandler(ctx, call)).value.SharedSecret?
    requires Prepare(crypto, clock, ctx, call).Ok?
    requires "api_sig" !in ToMap(call.kwargs)
    ensures var f := Prepare(crypto, clock, ctx, call).value;
            var keys := ResolveKeys(ctx, call).value;
            && keys.secret.PyStr?
            && "api_key" in ToMap(f) && ToMap(f)["api_key"] == CleanValue(keys.key)
            && (call.authed ==> && "auth_token" in ToMap(f)
                                && ToMap(f)["auth_token"] == Index(ActiveHandler(ctx, call).value.creds.authToken, "token").value)
            && "api_sig" in ToMap(f)
            && ToMap(f)["api_sig"] == PyStr(ApiSig(crypto.md5, keys.secret.s, Del(f, "api_sig"), Some(call.apiMethod)))
  {
    var keys := ResolveKeys(ctx, call).value;
    var handler := ActiveHandler(ctx, call);
    var params := BaseFields(keys.key, call.kwargs);
    PrepareBranches(crypto, clock, ctx, call);
    assert Prepare(crypto, clock, ctx, call) == SharedSign(crypto.md5, keys.secret, call.apiMethod, handler, call.authed, params);
    assert "api_sig" !in Keys(params);
    SharedSignFields(crypto.md5, keys.secret, call.apiMethod, handler, call.authed, params);
  }
}
