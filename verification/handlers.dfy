/** The authentication handlers of auth.py: construction with its key and
    permission checks, `getmeta` and the saved `{class, meta}` record, the signed
    authorization link of `compose_url`, and the OAuth parameter sets built by
    `sign_params` and `_request`. */
module Handlers {
  import opened Wrappers
  import opened Seqs
  import opened Dicts
  import opened PyValue
  import opened Signer
  import opened OAuth

  /** The module-level defaults `keys.API_KEY` and `keys.API_SECRET`. */
  datatype ApiKeys = ApiKeys(apiKey: Value, apiSecret: Value)

  /** The four handler classes a saved record can name. */
  datatype ClassName = AuthHandler | WebAuthHandler | DesktopAuthHandler | OAuthAuthHandler

  type SharedClass = c: ClassName | !c.OAuthAuthHandler? witness AuthHandler

  /** The attributes every handler has. */
  datatype Creds = Creds(apiKey: Value, apiSecret: Value, perms: Value, authToken: Value, frob: Value)

  /** A handler signing with the shared secret, or an OAuth handler with its extra state. */
  datatype Handler =
    | Shared(cls: SharedClass, creds: Creds)
    | OAuthHandler(creds: Creds, callback: Value, oauthToken: Value, oauthTokenSecret: Value)

  /** Result of a method that can update the handler and then fail. */
  datatype Effect<T> = Effect(handler: Handler, result: Result<T, Error>)

  /** An authorization link: the endpoint and the query it is sent with. */
  datatype AuthUrl = AuthUrl(endpoint: string, query: Dict<Value>)

  const UserAuthUrl := "http://www.ipernity.com/apps/authorize"
  const OAuthRequestTokenUrl := "http://www.ipernity.com/apps/oauth/request"
  const OAuthUserAuthUrl := "http://www.ipernity.com/apps/oauth/authorize"
  const OAuthAccessTokenUrl := "http://www.ipernity.com/apps/oauth/access"

  const NoKeysMessage := "No api_key or api_secret given"

  function ClassOf(h: Handler): ClassName {
    match h
    case Shared(c, _) => c
    case OAuthHandler(_, _, _, _) => OAuthAuthHandler
  }

  /** `self.__class__.__name__`. */
  function ClassNameText(c: ClassName): string {
    match c
    case AuthHandler => "AuthHandler"
    case WebAuthHandler => "WebAuthHandler"
    case DesktopAuthHandler => "DesktopAuthHandler"
    case OAuthAuthHandler => "OAuthAuthHandler"
  }

  /** The registry `load` consults in place of `globals()`. */
  function Lookup(name: string): (r: Option<ClassName>)
    ensures r.Some? ==> ClassNameText(r.value) == name
    ensures forall c :: ClassNameText(c) == name ==> r == Some(c)
  {
    if name == "AuthHandler" then Some(AuthHandler)
    else if name == "WebAuthHandler" then Some(WebAuthHandler)
    else if name == "DesktopAuthHandler" then Some(DesktopAuthHandler)
    else if name == "OAuthAuthHandler" then Some(OAuthAuthHandler)
    else None
  }

  // ---- construction -----------------------------------------------------

  const BaseArgs: seq<string> := ["api_key", "api_secret", "perms", "auth_token"]
  const OAuthArgs: seq<string> := ["callback", "oauth_token", "oauth_token_secret"] + BaseArgs

  /** The keyword arguments a class's `__init__` accepts. */
  function Accepted(c: ClassName): seq<string> {
    if c.OAuthAuthHandler? then OAuthArgs else BaseArgs
  }

  /** A keyword argument, None when not passed. */
  function Arg(kwargs: Dict<Value>, name: string): Value {
    Get(kwargs, name).GetOr(PyNone)
  }

  /** The first keyword argument `__init__` does not accept, if any. */
  function FirstUnknown(names: seq<string>, kwargs: Dict<Value>): (r: Option<string>)
    ensures r.None? <==> forall i :: 0 <= i < |kwargs| ==> kwargs[i].0 in names
    ensures r.Some? ==> r.value in Keys(kwargs) && r.value !in names
  {
    if kwargs == [] then None
    else if kwargs[0].0 !in names then Some(kwargs[0].0)
    else
      var rest := FirstUnknown(names, kwargs[1..]);
      assert forall i :: 1 <= i < |kwargs| ==> kwargs[i] == kwargs[1..][i - 1];
      rest
  }

  const PermTypes: seq<string> := ["doc", "blog", "network", "post", "profile"]
  const PermModes: seq<string> := ["read", "write", "delete"]

  predicate GoodPerm(e: (string, Value)) {
    e.0 in PermTypes && e.1.PyStr? && e.1.s in PermModes
  }

  /** The error the permission check raises for a bad entry: the type is checked before the mode. */
  function PermError(e: (string, Value)): Error {
    if e.0 !in PermTypes then AuthError("Unknown permission type: " + e.0)
    else AuthError("Unknown permission mode " + Show(e.1) + " for " + e.0)
  }

  /** The loop over `perms.keys()`: fails on the first entry with an unknown type or mode. */
  function CheckPermEntries(es: Dict<Value>): (r: Result<(), Error>)
    ensures r.Ok? <==> forall i :: 0 <= i < |es| ==> GoodPerm(es[i])
    ensures r.Err? ==> exists i :: 0 <= i < |es| && !GoodPerm(es[i])
                                  && (forall j :: 0 <= j < i ==> GoodPerm(es[j]))
                                  && r.error == PermError(es[i])
  {
    if es == [] then Ok(())
    else if !GoodPerm(es[0]) then Err(PermError(es[0]))
    else
      var rest := CheckPermEntries(es[1..]);
      assert forall i :: 1 <= i < |es| ==> es[i] == es[1..][i - 1];
      if rest.Err? then
        var i :| 0 <= i < |es[1..]| && !GoodPerm(es[1..][i])
                 && (forall j :: 0 <= j < i ==> GoodPerm(es[1..][j]))
                 && rest.error == PermError(es[1..][i]);
        assert forall j :: 0 <= j < i + 1 ==> GoodPerm(es[j]);
        rest
      else rest
  }

  /** Permissions the constructor accepts: anything falsy, or a dict of known types
      and modes. */
  predicate ValidPerms(perms: Value) {
    Truthy(perms) ==> perms.PyDict? && forall i :: 0 <= i < |perms.entries| ==> GoodPerm(perms.entries[i])
  }

  /** The sanity check of `__init__`, run only when `perms` is truthy. */
  function CheckPerms(perms: Value): (r: Result<(), Error>)
    ensures r.Ok? <==> ValidPerms(perms)
    ensures Truthy(perms) && !perms.PyDict? ==> r == Err(AttributeError("keys"))
  {
    if !Truthy(perms) then Ok(())
    else if !perms.PyDict? then Err(AttributeError("keys"))
    else CheckPermEntries(perms.entries)
  }

  /** What every constructed handler satisfies. */
  predicate Valid(h: Handler) {
    Truthy(h.creds.apiKey) && Truthy(h.creds.apiSecret) && ValidPerms(h.creds.perms)
  }

  /** Calling the class `c` with keyword arguments: `AuthHandler.__init__`, reached
      from `OAuthAuthHandler.__init__` with the OAuth arguments taken off. */
  function New(c: ClassName, defaults: ApiKeys, kwargs: Dict<Value>): (r: Result<Handler, Error>)
    ensures r.Ok? <==> (forall i :: 0 <= i < |kwargs| ==> kwargs[i].0 in Accepted(c))
                       && Truthy(Or(Arg(kwargs, "api_key"), defaults.apiKey))
                       && Truthy(Or(Arg(kwargs, "api_secret"), defaults.apiSecret))
                       && ValidPerms(Arg(kwargs, "perms"))
    ensures (forall i :: 0 <= i < |kwargs| ==> kwargs[i].0 in Accepted(c))
            && !(Truthy(Or(Arg(kwargs, "api_key"), defaults.apiKey))
                 && Truthy(Or(Arg(kwargs, "api_secret"), defaults.apiSecret)))
            ==> r == Err(AuthError(NoKeysMessage))
    ensures r.Ok? ==> ClassOf(r.value) == c && Valid(r.value)
    ensures r.Ok? ==> r.value.creds.apiKey == (if Truthy(Arg(kwargs, "api_key")) then Arg(kwargs, "api_key")
                                                else defaults.apiKey)
    ensures r.Ok? ==> r.value.creds.apiSecret == (if Truthy(Arg(kwargs, "api_secret")) then Arg(kwargs, "api_secret")
                                                   else defaults.apiSecret)
    ensures r.Ok? ==> r.value.creds.perms == Arg(kwargs, "perms") && r.value.creds.frob == PyNone
    ensures r.Ok? ==> r.value.creds.authToken == Arg(kwargs, "auth_token")
    ensures r.Ok? && c.OAuthAuthHandler? ==>
              r.value.callback == Arg(kwargs, "callback") && r.value.oauthToken == Arg(kwargs, "oauth_token")
              && r.value.oauthTokenSecret == Arg(kwargs, "oauth_token_secret")
  {
    match FirstUnknown(Accepted(c), kwargs)
    case Some(name) => Err(TypeError("__init__() got an unexpected keyword argument " + name))
    case None =>
      var key := Or(Arg(kwargs, "api_key"), defaults.apiKey);
      var secret := Or(Arg(kwargs, "api_secret"), defaults.apiSecret);
      if !Truthy(key) || !Truthy(secret) then Err(AuthError(NoKeysMessage))
      else
        var perms := Arg(kwargs, "perms");
        var _ :- CheckPerms(perms);
        var creds := Creds(key, secret, perms, Arg(kwargs, "auth_token"), PyNone);
        if c.OAuthAuthHandler? then
          Ok(OAuthHandler(creds, Arg(kwargs, "callback"), Arg(kwargs, "oauth_token"),
                          Arg(kwargs, "oauth_token_secret")))
        else Ok(Shared(c, creds))
  }

  // ---- getmeta, save and load -------------------------------------------

  /** `getmeta()`: the shared handlers save the key, secret, permissions and token;
      the OAuth handler swaps `auth_token` for its OAuth token and token secret. */
  function GetMeta(h: Handler): (r: Dict<Value>)
    ensures Distinct(r)
    ensures h.Shared? ==> Keys(r) == BaseArgs
    ensures h.OAuthHandler? ==> Keys(r) == ["api_key", "api_secret", "perms", "oauth_token", "oauth_token_secret"]
  {
    var c := h.creds;
    match h
    case Shared(_, _) =>
      [("api_key", c.apiKey), ("api_secret", c.apiSecret), ("perms", c.perms), ("auth_token", c.authToken)]
    case OAuthHandler(_, _, token, tokenSecret) =>
      [("api_key", c.apiKey), ("api_secret", c.apiSecret), ("perms", c.perms),
       ("oauth_token", token), ("oauth_token_secret", tokenSecret)]
  }

  /** The `{class, meta}` record `save` writes. */
  datatype Saved = Saved(className: string, meta: Dict<Value>)

  function Save(h: Handler): (r: Saved)
    ensures Lookup(r.className) == Some(ClassOf(h))
  {
    Saved(ClassNameText(ClassOf(h)), GetMeta(h))
  }

  /** `load`: find the class by name and call it with the meta as keyword arguments. */
  function Load(defaults: ApiKeys, rec: Saved): (r: Result<Handler, Error>)
    ensures Lookup(rec.className).None? ==> r == Err(KeyError(rec.className))
    ensures r.Ok? ==> ClassNameText(ClassOf(r.value)) == rec.className
  {
    match Lookup(rec.className)
    case None => Err(KeyError(rec.className))
    case Some(c) => New(c, defaults, rec.meta)
  }

  /** What a handler keeps after a save and load: the attributes `getmeta` leaves out
      come back as None. */
  function Reloaded(h: Handler): Handler {
    match h
    case Shared(c, cr) => Shared(c, cr.(frob := PyNone))
    case OAuthHandler(cr, _, token, tokenSecret) =>
      OAuthHandler(cr.(frob := PyNone, authToken := PyNone), PyNone, token, tokenSecret)
  }

  /** A constructor call that passes every check builds exactly the handler its
      arguments describe. */
  lemma NewBuilds(c: ClassName, defaults: ApiKeys, kwargs: Dict<Value>)
    requires forall i :: 0 <= i < |kwargs| ==> kwargs[i].0 in Accepted(c)
    requires Truthy(Or(Arg(kwargs, "api_key"), defaults.apiKey))
    requires Truthy(Or(Arg(kwargs, "api_secret"), defaults.apiSecret))
    requires ValidPerms(Arg(kwargs, "perms"))
    ensures var creds := Creds(Or(Arg(kwargs, "api_key"), defaults.apiKey),
                               Or(Arg(kwargs, "api_secret"), defaults.apiSecret), Arg(kwargs, "perms"),
                               Arg(kwargs, "auth_token"), PyNone);
            New(c, defaults, kwargs)
            == Ok(if c.OAuthAuthHandler?
                  then OAuthHandler(creds, Arg(kwargs, "callback"), Arg(kwargs, "oauth_token"),
                                    Arg(kwargs, "oauth_token_secret"))
                  else Shared(c, creds))
  {
    assert FirstUnknown(Accepted(c), kwargs).None?;
  }

  lemma SharedMetaArgs(h: Handler)
    requires h.Shared?
    ensures var meta := GetMeta(h);
            && Arg(meta, "api_key") == h.creds.apiKey && Arg(meta, "api_secret") == h.creds.apiSecret
            && Arg(meta, "perms") == h.creds.perms && Arg(meta, "auth_token") == h.creds.authToken
  {
    var meta := GetMeta(h);
    EntryInMap(meta, 0);
    EntryInMap(meta, 1);
    EntryInMap(meta, 2);
    EntryInMap(meta, 3);
  }

  lemma OAuthMetaArgs(h: Handler)
    requires h.OAuthHandler?
    ensures var meta := GetMeta(h);
            && Arg(meta, "api_key") == h.creds.apiKey && Arg(meta, "api_secret") == h.creds.apiSecret
            && Arg(meta, "perms") == h.creds.perms && Arg(meta, "auth_token") == PyNone
            && Arg(meta, "callback") == PyNone
            && Arg(meta, "oauth_token") == h.oauthToken && Arg(meta, "oauth_token_secret") == h.oauthTokenSecret
  {
    var meta := GetMeta(h);
    ArgAt(meta, 0);
    ArgAt(meta, 1);
    ArgAt(meta, 2);
    ArgAt(meta, 3);
    ArgAt(meta, 4);
    ArgAbsent(meta, "auth_token");
    ArgAbsent(meta, "callback");
  }

  /** In a dict without repeated keys, the argument named by an entry's key is its value. */
  lemma ArgAt(d: Dict<Value>, i: int)
    requires Distinct(d) && 0 <= i < |d|
    ensures Arg(d, d[i].0) == d[i].1
  {
    EntryInMap(d, i);
  }

  /** A missing argument reads as `None`. */
  lemma ArgAbsent(d: Dict<Value>, k: string)
    requires k !in Keys(d)
    ensures Arg(d, k) == PyNone
  {
  }

  /** Loading a saved handler rebuilds the same class with the same meta, whatever the
      default keys are. */
  lemma SaveLoadRoundTrip(defaults: ApiKeys, h: Handler)
    requires Valid(h)
    ensures Load(defaults, Save(h)) == Ok(Reloaded(h))
    ensures ClassOf(Reloaded(h)) == ClassOf(h)
    ensures GetMeta(Reloaded(h)) == GetMeta(h)
  {
    var meta := GetMeta(h);
    var c := ClassOf(h);
    assert Lookup(ClassNameText(c)) == Some(c);
    assert forall i :: 0 <= i < |meta| ==> meta[i].0 in Accepted(c) by {
      assert forall i :: 0 <= i < |meta| ==> meta[i].0 == Keys(meta)[i];
    }
    if h.Shared? {
      SharedMetaArgs(h);
    } else {
      OAuthMetaArgs(h);
    }
    NewBuilds(c, defaults, meta);
  }

  // ---- compose_url --------------------------------------------------------

  /** `{'perm_' + k: v for k, v in perms.items()}`. */
  function PermParams(entries: Dict<Value>): (r: Dict<Value>)
    ensures Keys(r) == MapSeq((k: string) => "perm_" + k, Keys(entries))
  {
    MapSeq((e: (string, Value)) => ("perm_" + e.0, e.1), entries)
  }

  /** Each permission `k` becomes the parameter `perm_k` with the same mode, and every
      `perm_` parameter comes from a permission; a repeated type keeps its last mode
      on both sides. */
  lemma {:induction false} PermParamsValues(entries: Dict<Value>)
    ensures forall k :: k in ToMap(entries) <==> "perm_" + k in ToMap(PermParams(entries))
    ensures forall k :: k in ToMap(entries) ==> ToMap(PermParams(entries))["perm_" + k] == ToMap(entries)[k]
    decreases |entries|
  {
    if entries != [] {
      var n := |entries| - 1;
      var e := entries[n];
      var pe := ("perm_" + e.0, e.1);
      PermParamsValues(entries[..n]);
      assert entries == entries[..n] + [e];
      assert PermParams(entries) == PermParams(entries[..n]) + [pe];
      ToMapAppend(entries[..n], e);
      ToMapAppend(PermParams(entries[..n]), pe);
      forall k ensures "perm_" + k == pe.0 <==> k == e.0 {
        PrefixCancel("perm_", k, e.0);
      }
    }
  }

  /** A common prefix can be cancelled. */
  lemma PrefixCancel(p: string, a: string, b: string)
    ensures p + a == p + b <==> a == b
  {
    if p + a == p + b {
      assert a == (p + a)[|p|..];
      assert b == (p + b)[|p|..];
    }
  }

  lemma PermParamsNames(entries: Dict<Value>, k: string)
    requires k in Keys(PermParams(entries))
    ensures |k| >= 5 && k[..5] == "perm_"
    ensures k != "api_key" && k != "api_sig" && k != "oauth_token"
  {
    var i :| 0 <= i < |entries| && Keys(PermParams(entries))[i] == k;
    assert k == "perm_" + entries[i].0;
    assert k[0] == 'p';
  }

  lemma PermParamsAvoid(entries: Dict<Value>)
    ensures "api_key" !in Keys(PermParams(entries))
    ensures "api_sig" !in Keys(PermParams(entries))
    ensures "oauth_token" !in Keys(PermParams(entries))
  {
    forall k | k in Keys(PermParams(entries))
      ensures k != "api_key" && k != "api_sig" && k != "oauth_token"
    {
      PermParamsNames(entries, k);
    }
  }

  /** The link parameters before signing: the key, the permissions, then the extras,
      which win over earlier entries. */
  function LinkParams(h: Handler, extras: Dict<Value>): (r: Result<Dict<Value>, Error>)
    ensures r.Ok? <==> h.creds.perms.PyDict?
    ensures r.Ok? ==> ToMap(r.value) == map["api_key" := h.creds.apiKey]
                                       + ToMap(PermParams(h.creds.perms.entries)) + ToMap(extras)
  {
    if !h.creds.perms.PyDict? then Err(AttributeError("items"))
    else Ok(Update(Update([("api_key", h.creds.apiKey)], PermParams(h.creds.perms.entries)), extras))
  }

  /** `compose_url(**extras)`: the link parameters with `api_sig`, the shared-secret
      signature over them with no method, put last. */
  function ComposeUrl(md5: seq<Byte> -> Digest16, h: Handler, extras: Dict<Value>): (r: Result<AuthUrl, Error>)
    ensures r.Ok? <==> h.creds.perms.PyDict? && h.creds.apiSecret.PyStr?
    ensures !h.creds.perms.PyDict? ==> r == Err(AttributeError("items"))
    ensures r.Ok? ==> r.value.endpoint == UserAuthUrl
    ensures r.Ok? ==> ToMap(r.value.query) == ToMap(LinkParams(h, extras).value)["api_sig" := PyStr(
                        ApiSig(md5, h.creds.apiSecret.s, LinkParams(h, extras).value, None))]
  {
    var params :- LinkParams(h, extras);
    var secret :- AsStr(h.creds.apiSecret);
    Ok(AuthUrl(UserAuthUrl, Put(params, "api_sig", PyStr(ApiSig(md5, secret, params, None)))))
  }

  /** The server can check a link: the signature over the query without `api_sig`
      is the `api_sig` sent, unless an extra argument itself was named `api_sig`. */
  lemma ComposeUrlVerifies(md5: seq<Byte> -> Digest16, h: Handler, extras: Dict<Value>)
    requires ComposeUrl(md5, h, extras).Ok?
    requires "api_sig" !in Keys(extras)
    ensures var q := ComposeUrl(md5, h, extras).value.query;
            "api_sig" in ToMap(q)
            && ToMap(q)["api_sig"] == PyStr(ApiSig(md5, h.creds.apiSecret.s, Del(q, "api_sig"), None))
  {
    var params := LinkParams(h, extras).value;
    var sig := PyStr(ApiSig(md5, h.creds.apiSecret.s, params, None));
    PermParamsAvoid(h.creds.perms.entries);
    assert "api_sig" !in ToMap(params);
    DelAbsent(params, "api_sig", sig);
  }

  /** `WebAuthHandler.get_auth_url()`: the link with no extra arguments. */
  function WebGetAuthUrl(md5: seq<Byte> -> Digest16, h: Handler): (r: Result<AuthUrl, Error>)
    requires h.Shared? && h.cls.WebAuthHandler?
    ensures r.Ok? <==> h.creds.perms.PyDict? && h.creds.apiSecret.PyStr?
    ensures !h.creds.perms.PyDict? ==> r == Err(AttributeError("items"))
    ensures r.Ok? ==> r.value.endpoint == UserAuthUrl
    ensures r.Ok? ==> forall k :: k in ToMap(r.value.query) <==>
                        k == "api_key" || k == "api_sig" || k in Keys(PermParams(h.creds.perms.entries))
    ensures r.Ok? ==> ToMap(r.value.query)["api_key"] == h.creds.apiKey
    ensures r.Ok? ==> forall k :: k in ToMap(h.creds.perms.entries) ==>
                        "perm_" + k in ToMap(r.value.query)
                        && ToMap(r.value.query)["perm_" + k] == ToMap(h.creds.perms.entries)[k]
    ensures r.Ok? ==> ToMap(r.value.query)["api_sig"]
                      == PyStr(ApiSig(md5, h.creds.apiSecret.s, Del(r.value.query, "api_sig"), None))
  {
    if h.creds.perms.PyDict? && h.creds.apiSecret.PyStr? then
      WebLinkFacts(md5, h);
      ComposeUrlVerifies(md5, h, []);
      ComposeUrl(md5, h, [])
    else ComposeUrl(md5, h, [])
  }

  /** The keys, the `api_key` and the permissions of a link composed with no extra
      arguments. */
  lemma WebLinkFacts(md5: seq<Byte> -> Digest16, h: Handler)
    requires h.creds.perms.PyDict? && h.creds.apiSecret.PyStr?
    ensures var q := ToMap(ComposeUrl(md5, h, []).value.query);
            && (forall k :: k in q <==> k == "api_key" || k == "api_sig" || k in Keys(PermParams(h.creds.perms.entries)))
            && "api_key" in q && q["api_key"] == h.creds.apiKey
            && (forall k :: k in ToMap(h.creds.perms.entries) ==>
                  "perm_" + k in q && q["perm_" + k] == ToMap(h.creds.perms.entries)[k])
  {
    PermParamsAvoid(h.creds.perms.entries);
    PermParamsValues(h.creds.perms.entries);
    var perms := ToMap(PermParams(h.creds.perms.entries));
    var sig := PyStr(ApiSig(md5, h.creds.apiSecret.s, LinkParams(h, []).value, None));
    assert ToMap<Value>([]) == map[];
    WebMapFacts(h.creds.apiKey, perms, sig, ToMap(ComposeUrl(md5, h, []).value.query));
  }

  /** The map algebra behind `WebLinkFacts`. */
  lemma WebMapFacts(key: Value, perms: map<string, Value>, sig: Value, q: map<string, Value>)
    requires "api_key" !in perms && "api_sig" !in perms
    requires q == (map["api_key" := key] + perms + map[])["api_sig" := sig]
    ensures forall k :: k in q <==> k == "api_key" || k == "api_sig" || k in perms
    ensures "api_key" in q && q["api_key"] == key
    ensures forall k :: k in perms ==> k in q && q[k] == perms[k]
  {
  }

  // ---- OAuth parameter sets --------------------------------------------

  /** The five OAuth protocol parameters `sign_params` starts from. */
  function OAuthBase(h: Handler, clock: Clock): (r: Dict<Value>)
    requires h.OAuthHandler?
    ensures Keys(r) == ["oauth_consumer_key", "oauth_token", "oauth_signature_method",
                        "oauth_timestamp", "oauth_nonce"]
  {
    [("oauth_consumer_key", h.creds.apiKey),
     ("oauth_token", h.oauthToken),
     ("oauth_signature_method", PyStr("HMAC-SHA1")),
     ("oauth_timestamp", PyStr(GenerateTimestamp(clock))),
     ("oauth_nonce", PyStr(GenerateNonce(8, clock.draw)))]
  }

  /** The protocol parameters name five different keys, so each carries its value:
      the consumer key, the stored token, `HMAC-SHA1`, the clock's timestamp and an
      eight-digit nonce. */
  lemma OAuthBaseValues(h: Handler, clock: Clock)
    requires h.OAuthHandler?
    ensures ToMap(OAuthBase(h, clock))
            == map["oauth_consumer_key" := h.creds.apiKey, "oauth_token" := h.oauthToken,
                   "oauth_signature_method" := PyStr("HMAC-SHA1"),
                   "oauth_timestamp" := PyStr(GenerateTimestamp(clock)),
                   "oauth_nonce" := PyStr(GenerateNonce(8, clock.draw))]
  {
    var d := OAuthBase(h, clock);
    SingleEntryMap(d[0].0, d[0].1);
    assert d[..1] == [d[0]];
    ToMapAppend(d[..1], d[1]);
    assert d[..2] == d[..1] + [d[1]];
    ToMapAppend(d[..2], d[2]);
    assert d[..3] == d[..2] + [d[2]];
    ToMapAppend(d[..3], d[3]);
    assert d[..4] == d[..3] + [d[3]];
    ToMapAppend(d[..4], d[4]);
    assert d == d[..4] + [d[4]];
  }

  lemma OAuthBaseNames(h: Handler, clock: Clock)
    requires h.OAuthHandler?
    ensures "api_key" !in ToMap(OAuthBase(h, clock))
    ensures SignatureParam !in ToMap(OAuthBase(h, clock))
  {
    var ks := Keys(OAuthBase(h, clock));
    assert SignatureParam != ks[2] by {
      assert |SignatureParam| != |ks[2]|;
    }
  }

  /** The parameters `sign_params` signs: the protocol parameters updated with the
      caller's, `api_key` taken out. */
  function SignInput(h: Handler, clock: Clock, kwargs: Dict<Value>): (r: Dict<Value>)
    requires h.OAuthHandler?
    ensures ToMap(r) == ToMap(OAuthBase(h, clock)) + (ToMap(kwargs) - {"api_key"})
  {
    Update(OAuthBase(h, clock), Del(kwargs, "api_key"))
  }

  /** `sign_params(url, kwargs, post)`: the signed input with `oauth_signature` last. */
  function SignParams(crypto: Crypto, clock: Clock, h: Handler, url: string,
                      kwargs: Dict<Value>, post: bool): (r: Result<Dict<Value>, Error>)
    requires h.OAuthHandler?
    ensures r.Ok? <==> SigningKey(h.creds.apiSecret, h.oauthTokenSecret).Ok?
    ensures r.Ok? ==> ToMap(r.value) == ToMap(SignInput(h, clock, kwargs))[SignatureParam := PyBytes(
                        BuildSignature(crypto, h.creds.apiSecret, url, SignInput(h, clock, kwargs),
                                       h.oauthTokenSecret, post).value)]
  {
    var params := SignInput(h, clock, kwargs);
    var sig :- BuildSignature(crypto, h.creds.apiSecret, url, params, h.oauthTokenSecret, post);
    PutAfterDel(params, SignatureParam, PyBytes(sig));
    Ok(Put(Del(params, SignatureParam), SignatureParam, PyBytes(sig)))
  }

  /** Which parameters a signed call carries: the five protocol parameters, the
      caller's (which win) except `api_key`, and the signature. */
  lemma SignParamsContents(crypto: Crypto, clock: Clock, h: Handler, url: string,
                           kwargs: Dict<Value>, post: bool)
    requires h.OAuthHandler?
    requires SignParams(crypto, clock, h, url, kwargs, post).Ok?
    ensures var p := ToMap(SignParams(crypto, clock, h, url, kwargs, post).value);
            && "api_key" !in p
            && (forall k :: k in p <==> (k in ToMap(OAuthBase(h, clock)) || k == SignatureParam
                                        || (k in ToMap(kwargs) && k != "api_key")))
            && (forall k :: k in ToMap(kwargs) && k != "api_key" && k != SignatureParam ==>
                              p[k] == ToMap(kwargs)[k])
            && (forall k :: k in ToMap(OAuthBase(h, clock)) && k !in ToMap(kwargs) ==>
                              p[k] == ToMap(OAuthBase(h, clock))[k])
  {
    OAuthBaseNames(h, clock);
    var input := SignInput(h, clock, kwargs);
    var sig := BuildSignature(crypto, h.creds.apiSecret, url, input, h.oauthTokenSecret, post).value;
    OverlayFacts(ToMap(OAuthBase(h, clock)), ToMap(kwargs), PyBytes(sig),
                 ToMap(SignParams(crypto, clock, h, url, kwargs, post).value));
  }

  /** The map algebra behind `SignParamsContents`. */
  lemma OverlayFacts(base: map<string, Value>, kw: map<string, Value>, sig: Value, p: map<string, Value>)
    requires "api_key" !in base && SignatureParam !in base
    requires p == (base + (kw - {"api_key"}))[SignatureParam := sig]
    ensures "api_key" !in p
    ensures forall k :: k in p <==> (k in base || k == SignatureParam || (k in kw && k != "api_key"))
    ensures forall k :: k in kw && k != "api_key" && k != SignatureParam ==> p[k] == kw[k]
    ensures forall k :: k in base && k !in kw ==> p[k] == base[k]
  {
  }

  /** A normalized string is blind to an `oauth_signature` entry deleted or replaced. */
  lemma NormalizedAfterResign(params: Dict<Value>, v: Value)
    ensures NormalizedParameters(Put(Del(params, SignatureParam), SignatureParam, v))
         == NormalizedParameters(params)
  {
    NormalizedIgnoresSignature(Del(params, SignatureParam), v);
    assert SignatureParam !in Keys(Del(params, SignatureParam));
    DelAbsent(Del(params, SignatureParam), SignatureParam, v);
  }

  /** The service can check a signed request: signing the returned parameters again
      with the same secrets gives the `oauth_signature` they carry. */
  lemma SignParamsVerifies(crypto: Crypto, clock: Clock, h: Handler, url: string,
                           kwargs: Dict<Value>, post: bool)
    requires h.OAuthHandler?
    requires SignParams(crypto, clock, h, url, kwargs, post).Ok?
    ensures var p := SignParams(crypto, clock, h, url, kwargs, post).value;
            SignatureParam in ToMap(p)
            && ToMap(p)[SignatureParam]
               == PyBytes(BuildSignature(crypto, h.creds.apiSecret, url, p, h.oauthTokenSecret, post).value)
  {
    var params := SignInput(h, clock, kwargs);
    var sig := BuildSignature(crypto, h.creds.apiSecret, url, params, h.oauthTokenSecret, post).value;
    NormalizedAfterResign(params, PyBytes(sig));
  }

  /** The parameters `_request` signs, and the token secret it signs them with. */
  datatype RequestInput = RequestInput(params: Dict<Value>, tokenSecret: Value)

  /** The four protocol parameters `_request` starts from. */
  function RequestBase(h: Handler, clock: Clock): (r: Dict<Value>)
    ensures Keys(r) == ["oauth_consumer_key", "oauth_signature_method", "oauth_timestamp", "oauth_nonce"]
  {
    [("oauth_consumer_key", h.creds.apiKey),
     ("oauth_signature_method", PyStr("HMAC-SHA1")),
     ("oauth_timestamp", PyStr(GenerateTimestamp(clock))),
     ("oauth_nonce", PyStr(GenerateNonce(8, clock.draw)))]
  }

  /** The four protocol parameters of `_request` carry the consumer key, `HMAC-SHA1`,
      the clock's timestamp and an eight-digit nonce. */
  lemma RequestBaseValues(h: Handler, clock: Clock)
    ensures ToMap(RequestBase(h, clock))
            == map["oauth_consumer_key" := h.creds.apiKey,
                   "oauth_signature_method" := PyStr("HMAC-SHA1"),
                   "oauth_timestamp" := PyStr(GenerateTimestamp(clock)),
                   "oauth_nonce" := PyStr(GenerateNonce(8, clock.draw))]
  {
    var d := RequestBase(h, clock);
    SingleEntryMap(d[0].0, d[0].1);
    assert d[..1] == [d[0]];
    ToMapAppend(d[..1], d[1]);
    assert d[..2] == d[..1] + [d[1]];
    ToMapAppend(d[..2], d[2]);
    assert d[..3] == d[..2] + [d[2]];
    ToMapAppend(d[..3], d[3]);
    assert d == d[..3] + [d[3]];
  }

  lemma RequestBaseNames(h: Handler, clock: Clock)
    ensures "oauth_callback" !in ToMap(RequestBase(h, clock))
    ensures "oauth_token" !in ToMap(RequestBase(h, clock))
    ensures SignatureParam !in ToMap(RequestBase(h, clock))
    ensures forall k :: k in Keys(RequestBase(h, clock)) ==> k in ToMap(RequestBase(h, clock))
  {
    var ks := Keys(RequestBase(h, clock));
    assert SignatureParam != ks[1] by {
      assert |SignatureParam| != |ks[1]|;
    }
  }

  function RequestParams(h: Handler, clock: Clock, verify: bool): (r: RequestInput)
    requires h.OAuthHandler?
    ensures "oauth_callback" in ToMap(r.params) <==> Truthy(h.callback) && !verify
    ensures "oauth_token" in ToMap(r.params) <==> verify
    ensures verify ==> ToMap(r.params)["oauth_token"] == h.oauthToken
    ensures r.tokenSecret == if verify then h.oauthTokenSecret else PyNone
    ensures SignatureParam !in ToMap(r.params)
    ensures forall k :: k in Keys(RequestBase(h, clock)) ==> k in ToMap(r.params)
  {
    var p0 := RequestBase(h, clock);
    RequestBaseNames(h, clock);
    var p1 := if Truthy(h.callback) && !verify then Put(p0, "oauth_callback", h.callback) else p0;
    if verify then RequestInput(Put(p1, "oauth_token", h.oauthToken), h.oauthTokenSecret)
    else RequestInput(p1, PyNone)
  }

  /** `_request` sends exactly the protocol parameters with their values, the callback
      when one is set and no token is sent, and the stored token when verifying. */
  lemma RequestParamsContents(h: Handler, clock: Clock, verify: bool)
    requires h.OAuthHandler?
    ensures var p := ToMap(RequestParams(h, clock, verify).params);
            var base := ToMap(RequestBase(h, clock));
            && (forall k :: k in p <==> k in base || (k == "oauth_callback" && Truthy(h.callback) && !verify)
                                        || (k == "oauth_token" && verify))
            && ("oauth_callback" in p ==> p["oauth_callback"] == h.callback)
            && (forall k :: k in base ==> p[k] == base[k])
  {
    RequestBaseNames(h, clock);
  }

  /** The signed query of `_request`, which always signs as GET. */
  function RequestQuery(crypto: Crypto, clock: Clock, h: Handler, url: string, verify: bool)
    : (r: Result<Dict<Value>, Error>)
    requires h.OAuthHandler?
    ensures r.Ok? <==> SigningKey(h.creds.apiSecret, RequestParams(h, clock, verify).tokenSecret).Ok?
    ensures r.Ok? ==> SignatureParam in ToMap(r.value)
                      && Del(r.value, SignatureParam) == RequestParams(h, clock, verify).params
  {
    var input := RequestParams(h, clock, verify);
    var sig :- BuildSignature(crypto, h.creds.apiSecret, url, input.params, input.tokenSecret, false);
    DelUndoesPut(input.params, SignatureParam, PyBytes(sig));
    Ok(Put(input.params, SignatureParam, PyBytes(sig)))
  }

  /** The signed query verifies: its `oauth_signature` is the signature over the query
      itself, computed with the request's token secret. */
  lemma RequestQueryVerifies(crypto: Crypto, clock: Clock, h: Handler, url: string, verify: bool)
    requires h.OAuthHandler?
    requires RequestQuery(crypto, clock, h, url, verify).Ok?
    ensures var q := RequestQuery(crypto, clock, h, url, verify).value;
            ToMap(q) == ToMap(RequestParams(h, clock, verify).params)[SignatureParam := PyBytes(
              BuildSignature(crypto, h.creds.apiSecret, url, q, RequestParams(h, clock, verify).tokenSecret, false).value)]
  {
    var input := RequestParams(h, clock, verify);
    var sig := BuildSignature(crypto, h.creds.apiSecret, url, input.params, input.tokenSecret, false).value;
    NormalizedIgnoresSignature(input.params, PyBytes(sig));
  }

  /** Stores the token pair of a reply: `oauth_token` first, so a reply without
      `oauth_token_secret` leaves the new token in place and then fails. */
  function ApplyTokenReply(h: Handler, reply: Dict<string>): (r: Effect<()>)
    requires h.OAuthHandler?
    ensures r.handler.OAuthHandler? && r.handler.creds == h.creds && r.handler.callback == h.callback
    ensures r.result.Ok? <==> "oauth_token" in ToMap(reply) && "oauth_token_secret" in ToMap(reply)
    ensures "oauth_token" !in ToMap(reply) ==> r == Effect(h, Err(KeyError("oauth_token")))
    ensures "oauth_token" in ToMap(reply) ==> r.handler.oauthToken == PyStr(ToMap(reply)["oauth_token"])
    ensures r.result.Ok? ==> r.handler.oauthTokenSecret == PyStr(ToMap(reply)["oauth_token_secret"])
    ensures r.result.Err? ==> r.handler.oauthTokenSecret == h.oauthTokenSecret
  {
    match Get(reply, "oauth_token")
    case None => Effect(h, Err(KeyError("oauth_token")))
    case Some(token) =>
      var h1 := h.(oauthToken := PyStr(token));
      match Get(reply, "oauth_token_secret")
      case None => Effect(h1, Err(KeyError("oauth_token_secret")))
      case Some(secret) => Effect(h1.(oauthTokenSecret := PyStr(secret)), Ok(()))
  }

  /** `h2` is `h` with the token pair of `reply` stored, both entries present. */
  predicate StoresReply(h: Handler, h2: Handler, reply: Dict<string>)
    requires h.OAuthHandler?
  {
    var m := ToMap(reply);
    && "oauth_token" in m && "oauth_token_secret" in m
    && h2 == OAuthHandler(h.creds, h.callback, PyStr(m["oauth_token"]), PyStr(m["oauth_token_secret"]))
  }

  /** `urlopen` of the signed URL with `parse_qsl` of the reply, supplied by the caller. */
  type TokenFetch = (string, Dict<Value>) -> Result<Dict<string>, Error>

  /** `_request(url, verify)`: sign, send, store the reply's token pair. */
  function OAuthRequest(crypto: Crypto, clock: Clock, fetch: TokenFetch, h: Handler,
                        url: string, verify: bool): (r: Effect<()>)
    requires h.OAuthHandler?
    ensures r.handler.OAuthHandler? && r.handler.creds == h.creds && r.handler.callback == h.callback
    ensures RequestQuery(crypto, clock, h, url, verify).Err? ==> r.handler == h && r.result.Err?
    ensures r.result.Err? ==> r.handler.oauthTokenSecret == h.oauthTokenSecret
    ensures r.result.Ok? ==> RequestQuery(crypto, clock, h, url, verify).Ok?
                             && fetch(url, RequestQuery(crypto, clock, h, url, verify).value).Ok?
    ensures RequestQuery(crypto, clock, h, url, verify).Ok?
            && fetch(url, RequestQuery(crypto, clock, h, url, verify).value).Err? ==>
              r == Effect(h, Err(fetch(url, RequestQuery(crypto, clock, h, url, verify).value).error))
    ensures RequestQuery(crypto, clock, h, url, verify).Ok?
            && fetch(url, RequestQuery(crypto, clock, h, url, verify).value).Ok? ==>
              (r.result.Ok? <==> StoresReply(h, r.handler, fetch(url, RequestQuery(crypto, clock, h, url, verify).value).value))
  {
    match RequestQuery(crypto, clock, h, url, verify)
    case Err(e) => Effect(h, Err(e))
    case Ok(query) =>
      match fetch(url, query)
      case Err(e) => Effect(h, Err(e))
      case Ok(reply) => ApplyTokenReply(h, reply)
  }

  /** `OAuthAuthHandler.get_auth_url()`: fetch a request token, then link to the
      authorization page with that token and the permissions. A failed fetch is
      raised before any link is built. */
  function OAuthGetAuthUrl(crypto: Crypto, clock: Clock, fetch: TokenFetch, h: Handler): (r: Effect<AuthUrl>)
    requires h.OAuthHandler?
    ensures r.handler == OAuthRequest(crypto, clock, fetch, h, OAuthRequestTokenUrl, false).handler
    ensures OAuthRequest(crypto, clock, fetch, h, OAuthRequestTokenUrl, false).result.Err? ==>
              r.result == Err(OAuthRequest(crypto, clock, fetch, h, OAuthRequestTokenUrl, false).result.error)
    ensures OAuthRequest(crypto, clock, fetch, h, OAuthRequestTokenUrl, false).result.Ok? ==>
              r.result == AuthorizeUrl(r.handler)
  {
    var e := OAuthRequest(crypto, clock, fetch, h, OAuthRequestTokenUrl, false);
    match e.result
    case Err(err) => Effect(e.handler, Err(err))
    case Ok(_) => Effect(e.handler, AuthorizeUrl(e.handler))
  }

  /** The link `get_auth_url` returns goes to the authorization page and holds exactly
      the request token just stored and the `perm_` parameters. */
  lemma OAuthAuthUrlContents(crypto: Crypto, clock: Clock, fetch: TokenFetch, h: Handler)
    requires h.OAuthHandler? && h.creds.perms.PyDict?
    ensures OAuthGetAuthUrl(crypto, clock, fetch, h).result.Ok?
            <==> OAuthRequest(crypto, clock, fetch, h, OAuthRequestTokenUrl, false).result.Ok?
    ensures var r := OAuthGetAuthUrl(crypto, clock, fetch, h);
            r.result.Ok? ==>
            var q := ToMap(r.result.value.query);
            && r.result.value.endpoint == OAuthUserAuthUrl
            && (forall k :: k in q <==> (k == "oauth_token" || k in Keys(PermParams(h.creds.perms.entries))))
            && "oauth_token" in q && q["oauth_token"] == r.handler.oauthToken
            && (forall k :: k in ToMap(h.creds.perms.entries) ==>
                  "perm_" + k in q && q["perm_" + k] == ToMap(h.creds.perms.entries)[k])
  {
    var r := OAuthGetAuthUrl(crypto, clock, fetch, h);
    assert r.handler.creds == h.creds;
    assert r.handler.OAuthHandler?;
    if OAuthRequest(crypto, clock, fetch, h, OAuthRequestTokenUrl, false).result.Ok? {
      assert r.result == AuthorizeUrl(r.handler);
    }
  }

  /** The authorization link of `get_auth_url`, once the request token is stored. */
  function AuthorizeUrl(h: Handler): (r: Result<AuthUrl, Error>)
    requires h.OAuthHandler?
    ensures r.Ok? <==> h.creds.perms.PyDict?
    ensures r.Ok? ==> r.value.endpoint == OAuthUserAuthUrl
    ensures r.Ok? ==> forall k :: k in ToMap(r.value.query) <==>
                        (k == "oauth_token" || k in Keys(PermParams(h.creds.perms.entries)))
    ensures r.Ok? ==> ToMap(r.value.query)["oauth_token"] == h.oauthToken
    ensures !h.creds.perms.PyDict? ==> r == Err(AttributeError("items"))
    ensures r.Ok? ==> forall k :: k in ToMap(h.creds.perms.entries) ==>
                        "perm_" + k in ToMap(r.value.query)
                        && ToMap(r.value.query)["perm_" + k] == ToMap(h.creds.perms.entries)[k]
  {
    if !h.creds.perms.PyDict? then Err(AttributeError("items"))
    else
      var perms := PermParams(h.creds.perms.entries);
      var head: Dict<Value> := [("oauth_token", h.oauthToken)];
      assert ToMap(head) == map["oauth_token" := h.oauthToken];
      PermParamsAvoid(h.creds.perms.entries);
      PermParamsValues(h.creds.perms.entries);
      AuthorizeMapFacts(h.oauthToken, ToMap(h.creds.perms.entries), ToMap(perms), ToMap(Update(head, perms)));
      Ok(AuthUrl(OAuthUserAuthUrl, Update(head, perms)))
  }

  /** The map algebra behind `AuthorizeUrl`: the token first, then every `perm_k`
      carrying the value of permission `k`. */
  lemma AuthorizeMapFacts(token: Value, perms: map<string, Value>, pm: map<string, Value>, q: map<string, Value>)
    requires "oauth_token" !in pm
    requires forall k :: k in perms ==> "perm_" + k in pm && pm["perm_" + k] == perms[k]
    requires q == map["oauth_token" := token] + pm
    ensures "oauth_token" in q && q["oauth_token"] == token
    ensures forall k :: k in perms ==> "perm_" + k in q && q["perm_" + k] == perms[k]
  {
  }

  /** `OAuthAuthHandler.verify()`: exchange the authorized token for an access token,
      sending the token and signing with its secret, without the callback. */
  function OAuthVerify(crypto: Crypto, clock: Clock, fetch: TokenFetch, h: Handler): (r: Effect<()>)
    requires h.OAuthHandler?
    ensures r.result.Ok? ==> var q := RequestQuery(crypto, clock, h, OAuthAccessTokenUrl, true);
                             && q.Ok? && SendsToken(q.value, h.oauthToken)
                             && fetch(OAuthAccessTokenUrl, q.value).Ok?
  {
    var e := OAuthRequest(crypto, clock, fetch, h, OAuthAccessTokenUrl, true);
    if e.result.Ok? then
      VerifyQuery(crypto, clock, h);
      e
    else e
  }

  /** A successful exchange stores the access token and its secret from the reply; a
      failed one keeps the token secret; the keys, permissions and callback never change. */
  lemma VerifyStoresToken(crypto: Crypto, clock: Clock, fetch: TokenFetch, h: Handler)
    requires h.OAuthHandler?
    ensures var r := OAuthVerify(crypto, clock, fetch, h);
            && r.handler.OAuthHandler? && r.handler.creds == h.creds && r.handler.callback == h.callback
            && (r.result.Err? ==> r.handler.oauthTokenSecret == h.oauthTokenSecret)
    ensures var q := RequestQuery(crypto, clock, h, OAuthAccessTokenUrl, true);
            OAuthVerify(crypto, clock, fetch, h).result.Ok? ==>
              && q.Ok? && fetch(OAuthAccessTokenUrl, q.value).Ok?
              && StoresReply(h, OAuthVerify(crypto, clock, fetch, h).handler, fetch(OAuthAccessTokenUrl, q.value).value)
  {
  }

  /** `q` carries the token `token` and no callback. */
  predicate SendsToken(q: Dict<Value>, token: Value) {
    var m := ToMap(q);
    "oauth_token" in m && m["oauth_token"] == token && "oauth_callback" !in m
  }

  /** The access-token request carries the authorized token and no callback. */
  lemma VerifyQuery(crypto: Crypto, clock: Clock, h: Handler)
    requires h.OAuthHandler?
    requires RequestQuery(crypto, clock, h, OAuthAccessTokenUrl, true).Ok?
    ensures SendsToken(RequestQuery(crypto, clock, h, OAuthAccessTokenUrl, true).value, h.oauthToken)
  {
    RequestQueryVerifies(crypto, clock, h, OAuthAccessTokenUrl, true);
    assert SignatureParam != "oauth_token" && SignatureParam != "oauth_callback";
  }
}
