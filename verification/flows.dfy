/** The desktop flow of auth.py (lines 185-200): a desktop application asks the
    service for a frob through `call_api`, with the handler's own keys, before it
    can build its authorisation link, and keeps that frob on the handler for the
    next time. */
module Flows {
  import opened Wrappers
  import opened Dicts
  import opened PyValue
  import opened Signer
  import opened OAuth
  import opened Handlers
  import opened Dispatch

  /** What a flow leaves behind: the handler, the cache, the result and the requests sent. */
  datatype Step<T> = Step(handler: Handler, cache: Option<Cache>, result: Result<T, Error>, sent: seq<HttpRequest>)

  /** The call `_get_frob` makes: signed, not authenticated, as a POST. */
  function FrobCall(h: Handler): Call {
    Call("auth.getFrob", h.creds.apiKey, h.creds.apiSecret, true, false, true, None, [])
  }

  /** `resp['auth']['frob']`. */
  function FrobOf(resp: Value): (r: Result<Value, Error>)
    ensures r.Ok? <==> && resp.PyDict? && "auth" in ToMap(resp.entries)
                       && ToMap(resp.entries)["auth"].PyDict?
                       && "frob" in ToMap(ToMap(resp.entries)["auth"].entries)
    ensures r.Ok? ==> r.value == ToMap(ToMap(resp.entries)["auth"].entries)["frob"]
    ensures resp.PyDict? && "auth" !in ToMap(resp.entries) ==> r == Err(KeyError("auth"))
  {
    var auth :- Index(resp, "auth");
    Index(auth, "frob")
  }

  /** The handler with a new frob; nothing else changes. */
  function WithFrob(h: Handler, frob: Value): (r: Handler)
    requires h.Shared?
    ensures r.Shared? && r.cls == h.cls && r.creds == h.creds.(frob := frob)
  {
    Shared(h.cls, h.creds.(frob := frob))
  }

  /** `DesktopAuthHandler.get_auth_url()`: a falsy frob is first replaced by one fetched
      from the service, then the link carries the frob. A failed fetch leaves the
      handler as it was. */
  function DesktopGetAuthUrl(crypto: Crypto, clock: Clock, send: Transport, ctx: Context, h: Handler)
    : (r: Step<AuthUrl>)
    requires h.Shared? && h.cls.DesktopAuthHandler?
    ensures r.cache == ctx.cache
    ensures r.handler.Shared? && r.handler.cls == h.cls
    ensures r.handler.creds == h.creds.(frob := r.handler.creds.frob)
    ensures Truthy(h.creds.frob) ==> r.handler == h && r.sent == []
    ensures r.handler.creds.frob != h.creds.frob ==>
              && CallApi(crypto, clock, send, ctx, FrobCall(h)).result.Ok?
              && FrobOf(CallApi(crypto, clock, send, ctx, FrobCall(h)).result.value) == Ok(r.handler.creds.frob)
    ensures !Truthy(h.creds.frob) ==> r.sent == CallApi(crypto, clock, send, ctx, FrobCall(h)).sent
    ensures !Truthy(h.creds.frob) && CallApi(crypto, clock, send, ctx, FrobCall(h)).result.Err? ==>
              r == Step(h, ctx.cache, Err(CallApi(crypto, clock, send, ctx, FrobCall(h)).result.error),
                        CallApi(crypto, clock, send, ctx, FrobCall(h)).sent)
    ensures r.result.Ok? ==> r.result == ComposeUrl(crypto.md5, r.handler, [("frob", r.handler.creds.frob)])
    ensures Truthy(h.creds.frob) ==> r == Step(h, ctx.cache, ComposeUrl(crypto.md5, h, [("frob", h.creds.frob)]), [])
    ensures var out := CallApi(crypto, clock, send, ctx, FrobCall(h));
            !Truthy(h.creds.frob) && out.result.Ok? ==>
              if FrobOf(out.result.value).Err? then r == Step(h, ctx.cache, Err(FrobOf(out.result.value).error), out.sent)
              else && r.handler == WithFrob(h, FrobOf(out.result.value).value)
                   && r.result == ComposeUrl(crypto.md5, r.handler, [("frob", FrobOf(out.result.value).value)])
  {
    if Truthy(h.creds.frob) then
      Step(h, ctx.cache, ComposeUrl(crypto.md5, h, [("frob", h.creds.frob)]), [])
    else
      var out := CallApi(crypto, clock, send, ctx, FrobCall(h));
      match out.result
      case Err(e) => Step(h, out.cache, Err(e), out.sent)
      case Ok(resp) =>
        match FrobOf(resp)
        case Err(e) => Step(h, out.cache, Err(e), out.sent)
        case Ok(frob) =>
          var h' := WithFrob(h, frob);
          Step(h', out.cache, ComposeUrl(crypto.md5, h', [("frob", frob)]), out.sent)
  }

  /** The frob reply `{"auth": {"frob": f}}` gives back `f`. */
  lemma FrobOfReply(frob: Value)
    ensures FrobOf(PyDict([("auth", PyDict([("frob", frob)]))])) == Ok(frob)
  {
    SingleEntryMap("frob", frob);
    SingleEntryMap("auth", PyDict([("frob", frob)]));
  }

  /** The frob request is signed with the handler's secret over `api_key` and the method
      `auth.getFrob`, and carries nothing else, unless an OAuth handler is installed. */
  lemma FrobCallSigned(crypto: Crypto, clock: Clock, ctx: Context, h: Handler)
    requires h.Shared? && Truthy(h.creds.apiKey) && Truthy(h.creds.apiSecret)
    requires ctx.handler.None? || ctx.handler.value.Shared?
    requires Prepare(crypto, clock, ctx, FrobCall(h)).Ok?
    ensures var f := Prepare(crypto, clock, ctx, FrobCall(h)).value;
            && h.creds.apiSecret.PyStr?
            && (forall k :: k in ToMap(f) <==> k == "api_key" || k == "api_sig")
            && ToMap(f)["api_key"] == CleanValue(h.creds.apiKey)
            && ToMap(f)["api_sig"] == PyStr(ApiSig(crypto.md5, h.creds.apiSecret.s, Del(f, "api_sig"), Some("auth.getFrob")))
  {
    var call := FrobCall(h);
    assert ToMap(call.kwargs) == map[];
    SharedSecretFields(crypto, clock, ctx, call);
    SharedSecretKeys(crypto, clock, ctx, call);
  }

  /** The call `getToken` makes: signed, not authenticated, a POST with the frob. */
  function TokenCall(h: Handler, frob: Value): Call {
    Call("auth.getToken", h.creds.apiKey, h.creds.apiSecret, true, false, true, None, [("frob", frob)])
  }

  /** `getToken(frob=None)`: exchange the given frob, or the stored one when None, for
      the reply's `auth` entry, which becomes `auth_token`. A failed call leaves the
      handler as it was. */
  function GetToken(crypto: Crypto, clock: Clock, send: Transport, ctx: Context, h: Handler, frob: Value)
    : (r: Step<Value>)
    requires h.Shared?
    ensures var used := if frob.PyNone? then h.creds.frob else frob;
            var out := CallApi(crypto, clock, send, ctx, TokenCall(h, used));
            && r.cache == out.cache && r.sent == out.sent
            && r.handler.Shared? && r.handler.cls == h.cls
            && (r.result.Ok? <==> out.result.Ok? && Index(out.result.value, "auth").Ok?)
            && (r.result.Ok? ==> && r.result.value == Index(out.result.value, "auth").value
                                 && r.handler.creds == h.creds.(authToken := r.result.value))
            && (r.result.Err? ==> r.handler == h)
  {
    var used := if frob.PyNone? then h.creds.frob else frob;
    var out := CallApi(crypto, clock, send, ctx, TokenCall(h, used));
    match out.result
    case Err(e) => Step(h, out.cache, Err(e), out.sent)
    case Ok(resp) =>
      match Index(resp, "auth")
      case Err(e) => Step(h, out.cache, Err(e), out.sent)
      case Ok(token) => Step(Shared(h.cls, h.creds.(authToken := token)), out.cache, Ok(token), out.sent)
  }

  /** A token request sends the frob it is given, signed over it with the method
      `auth.getToken`, unless an OAuth handler is installed. */
  lemma TokenCallSendsFrob(crypto: Crypto, clock: Clock, ctx: Context, h: Handler, frob: Value)
    requires h.Shared? && Truthy(h.creds.apiKey) && Truthy(h.creds.apiSecret)
    requires ctx.handler.None? || ctx.handler.value.Shared?
    requires Prepare(crypto, clock, ctx, TokenCall(h, frob)).Ok?
    ensures var f := Prepare(crypto, clock, ctx, TokenCall(h, frob)).value;
            && (forall k :: k in ToMap(f) <==> k == "api_key" || k == "frob" || k == "api_sig")
            && ToMap(f)["frob"] == CleanValue(frob)
            && ToMap(f)["api_sig"] == PyStr(ApiSig(crypto.md5, h.creds.apiSecret.s, Del(f, "api_sig"), Some("auth.getToken")))
  {
    var call := TokenCall(h, frob);
    SingleEntryMap("frob", frob);
    assert ToMap(call.kwargs) == map["frob" := frob];
    assert "frob" != "api_key" && "frob" != "api_sig" && "frob" != "auth_token" by {
      assert "frob"[0] != "api_key"[0] && "frob"[0] != "auth_token"[0];
    }
    SharedSecretFields(crypto, clock, ctx, call);
    SharedSecretKeys(crypto, clock, ctx, call);
  }

  /** Once a desktop handler holds a truthy frob, asking for the link again sends
      nothing and gives the same link, whatever the transport and cache. */
  lemma DesktopFrobReused(crypto: Crypto, clock: Clock, send: Transport, ctx: Context, h: Handler,
                          send': Transport, ctx': Context)
    requires h.Shared? && h.cls.DesktopAuthHandler?
    requires DesktopGetAuthUrl(crypto, clock, send, ctx, h).result.Ok?
    requires Truthy(DesktopGetAuthUrl(crypto, clock, send, ctx, h).handler.creds.frob)
    ensures var r := DesktopGetAuthUrl(crypto, clock, send, ctx, h);
            DesktopGetAuthUrl(crypto, clock, send', ctx', r.handler) == Step(r.handler, ctx'.cache, r.result, [])
  {
  }

  /** A link composed with a frob carries the handler's key and that frob, and a
      signature the service can recompute from the rest of the query. */
  lemma FrobLinkFields(md5: seq<Byte> -> Digest16, h: Handler, frob: Value)
    requires ComposeUrl(md5, h, [("frob", frob)]).Ok?
    ensures var u := ComposeUrl(md5, h, [("frob", frob)]).value;
            var q := ToMap(u.query);
            && u.endpoint == UserAuthUrl
            && "frob" in q && q["frob"] == frob
            && "api_key" in q && q["api_key"] == h.creds.apiKey
            && "api_sig" in q
            && q["api_sig"] == PyStr(ApiSig(md5, h.creds.apiSecret.s, Del(u.query, "api_sig"), None))
  {
    var extras := [("frob", frob)];
    FrobExtras(frob);
    PermParamsAvoid(h.creds.perms.entries);
    ComposeUrlVerifies(md5, h, extras);
    var sig := PyStr(ApiSig(md5, h.creds.apiSecret.s, LinkParams(h, extras).value, None));
    LinkMapFacts(h.creds.apiKey, ToMap(PermParams(h.creds.perms.entries)), frob, sig,
                 ToMap(ComposeUrl(md5, h, extras).value.query));
  }

  /** The single extra argument `frob=`. */
  lemma FrobExtras(frob: Value)
    ensures Keys([("frob", frob)]) == ["frob"]
    ensures ToMap([("frob", frob)]) == map["frob" := frob]
  {
    assert Keys([("frob", frob)])[0] == "frob";
  }

  /** The map algebra behind `FrobLinkFields`. */
  lemma LinkMapFacts(key: Value, perms: map<string, Value>, frob: Value, sig: Value, q: map<string, Value>)
    requires "api_key" !in perms
    requires q == (map["api_key" := key] + perms + map["frob" := frob])["api_sig" := sig]
    ensures "frob" in q && q["frob"] == frob
    ensures "api_key" in q && q["api_key"] == key
  {
  }

  /** The desktop link carries the handler's key and its frob, and a signature the
      service can recompute from the rest of the query. */
  lemma DesktopUrlCarriesFrob(crypto: Crypto, clock: Clock, send: Transport, ctx: Context, h: Handler)
    requires h.Shared? && h.cls.DesktopAuthHandler?
    requires DesktopGetAuthUrl(crypto, clock, send, ctx, h).result.Ok?
    ensures var r := DesktopGetAuthUrl(crypto, clock, send, ctx, h);
            var q := ToMap(r.result.value.query);
            && r.result.value.endpoint == UserAuthUrl
            && "frob" in q && q["frob"] == r.handler.creds.frob
            && "api_key" in q && q["api_key"] == h.creds.apiKey
            && "api_sig" in q
            && q["api_sig"] == PyStr(ApiSig(crypto.md5, h.creds.apiSecret.s, Del(r.result.value.query, "api_sig"), None))
  {
    var r := DesktopGetAuthUrl(crypto, clock, send, ctx, h);
    FrobLinkFields(crypto.md5, r.handler, r.handler.creds.frob);
  }
}
