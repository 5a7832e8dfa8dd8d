# Ipernity client: request signing and credentials

This project is a Dafny model of the part of the Ipernity Python client that signs requests and handles credentials. It covers `ipernity_api/rest.py` and `ipernity_api/auth.py`. It has two parts:

- **Shared-secret side.**
  - `_clean_params`.
  - The MD5 pre-image built by `sign_keys`.
  - The decisions `call_api` makes before and after the HTTP exchange: resolving keys, choosing a signing path, the GET-only response cache, and reading the JSON envelope.
- **Authentication handlers.**
  - Constructor validation, `getmeta` and the `{class, meta}` save/load record.
  - The link signed by `compose_url`.
  - The web and desktop `get_auth_url`.
  - OAuth 1.0a signing (RFC 5849): `escape` (section 3.6), the normalized parameter string (section 3.4.1.3.2), the base string (section 3.4.1.1) and the HMAC-SHA1 key (section 3.4.2).
  - The parameter sets `sign_params` and `_request` build.

The files, each one module, are listed in dependency order:

| file | module | models |
|---|---|---|
| wrappers.dfy | `Wrappers` | `Option` and `Result`; an `Err` is a Python exception |
| seqs.dfy | `Seqs` | `''.join`, `sep.join` and `str.split`, and element-wise maps |
| sorting.dfy | `Sorting` | Python's ordering of str and of pairs of str, and `list.sort` |
| dicts.dfy | `Dicts` | dicts as insertion-ordered lists of entries: `d[k] = v`, `del`, `update` |
| pyvalue.dfy | `PyValue` | the values handled, their truthiness, `str()`/`repr()`, `int()`, and the exceptions |
| percent.dfy | `Percent` | UTF-8 and `urllib.parse.quote(s, safe='~')` |
| signer.dfy | `Signer` | `_clean_params` and `sign_keys` |
| oauth.dfy | `OAuth` | `generate_nonce`, `generate_timestamp`, `_normalized_parameters`, `_build_signature` |
| handlers.dfy | `Handlers` | the handler classes, `compose_url`, `sign_params`, `_request`, OAuth `get_auth_url`/`verify` |
| dispatch.dfy | `Dispatch` | `call_api`, `enable_cache`/`disable_cache`, `set_auth_handler` |
| flows.dfy | `Flows` | `DesktopAuthHandler.get_auth_url` and its frob, `getToken` |

**Dicts.** A dict is a sequence of `(key, value)` entries, so insertion order is visible. "Does not depend on insertion order" is therefore a real statement: two dicts with the same `ToMap` give the same result.

**Foreign calls are parameters.**
- MD5, HMAC-SHA1 and `b2a_base64` are the fields of `OAuth.Crypto`.
- `time.time()` and `random.randint` are an `OAuth.Clock`.
- The HTTP transport is a `Dispatch.Transport`.
- The OAuth token endpoint is a `Handlers.TokenFetch`.

**Global state.** The module-level `keys.API_KEY`/`API_SECRET`, `AUTH_HANDLER` and `CACHE` are a `Dispatch.Context` that is passed in and returned. A method that assigns handler attributes returns the handler as it is afterwards, including when it then raises.

**Where the behaviour is easy to misread, the model follows the code:**
- **`_clean_params` turns `True`/`False` into the strings `"True"`/`"False"`, not `1`/`0`.** Line 34 stores `1`/`0`, but line 35 tests the original `v` again. A bool is an int, so the value is overwritten with `str(v)`.
- **The cache key is the URL without any query** (rest.py:65). Two GETs of one method with different parameters share an entry.
- **A cached error response is never used.**
  - A `requests` Response is falsy for status 400-599, so `CACHE.get(url) or requests.get(...)` asks again. The stored entry is not replaced, because the store only happens when the URL is absent.
  - `raise_for_status` fails for 400-599 only, so 1xx and 3xx statuses reach the JSON step.
- **`compose_url` on a handler whose `perms` is None fails** with `AttributeError` at `.items()`. So does the OAuth `get_auth_url`.

## Model

| member | source | states |
|---|---|---|
| Signer.CleanValue | ipernity_api/rest.py:32-36 | a bool or int becomes the str of its original value (`"True"`, `"False"`, decimal digits); every other value is returned unchanged; the printed form never changes |
| Signer.CleanParams | ipernity_api/rest.py:31-37 | same keys in the same order; no bool or int value is left; every value prints as before; values of other types are untouched |
| Signer.CleanBoolIsWord | ipernity_api/rest.py:33-36 | True gives "True" and False gives "False", not "1"/"0"; 42 gives "42" |
| Signer.CleanParamsIdempotent | ipernity_api/rest.py:31-37 | cleaning an already cleaned dict changes nothing |
| Signer.CleanParamsToMap | ipernity_api/rest.py:31-37 | as a mapping, cleaning keeps the key set and cleans each value |
| Signer.SortedKeys | ipernity_api/rest.py:130 | the sorted keys are a permutation of the dict's keys, in ascending str order |
| Signer.SignatureBaseOfSorted | ipernity_api/rest.py:130-134 | for any ascending arrangement of the keys, the pre-image is each key followed by its value in that order, then the method text, then the secret |
| Signer.SignatureBase | ipernity_api/rest.py:130-134 | the pre-image ends with the method text (empty without a method), then the secret |
| Signer.SignatureBaseOrderFree | ipernity_api/rest.py:130-134 | two dicts with the same contents in different insertion orders give the same pre-image |
| Signer.NoMethodIsEmptyMethod | ipernity_api/rest.py:134 | no method and the empty method give the same pre-image |
| Signer.SignatureBaseCollision | ipernity_api/rest.py:132 | two different one-entry dicts whose key and value run together alike, such as `{"ab": "c"}` and `{"a": "bc"}`, have the same pre-image, for every secret and method |
| Signer.SignatureBaseSeparatesSecretAndMethod | ipernity_api/rest.py:134 | over one dict, equal pre-images with equal method text have equal secrets, and with equal secrets have equal method text |
| Signer.HexDigest | ipernity_api/rest.py:135 | two lowercase hex characters per byte |
| Signer.HexDecodeDigest | ipernity_api/rest.py:135 | reading the hexdigest back gives the digest bytes |
| Signer.ApiSig | ipernity_api/rest.py:112-136 | `api_sig` is 32 lowercase hex characters that decode to the MD5 of the UTF-8 pre-image |
| Dispatch.EnableCache | ipernity_api/rest.py:12-21 | installs the given cache, or an empty one; nothing else changes |
| Dispatch.DisableCache | ipernity_api/rest.py:24-28 | removes the cache; nothing else changes |
| Dispatch.SetAuthHandler | ipernity_api/auth.py:369-371 | installs the handler; defaults and cache unchanged |
| Dispatch.ApiUrl | ipernity_api/rest.py:65 | the URL is the API base, then the method, then `/json`; the method can be read back from it |
| Dispatch.ApiUrlInjective | ipernity_api/rest.py:65 | two methods have the same URL, and so the same cache entry, iff they are the same method |
| Dispatch.ActiveHandler | ipernity_api/rest.py:68 | the call's handler wins over the installed one; there is none only when neither is set |
| Dispatch.ResolveKeys | ipernity_api/rest.py:56-61 | succeeds iff the explicit-or-default key and secret are both truthy; a truthy explicit value wins over the default; otherwise the error is "No Ipernity API keys been set" |
| Dispatch.BaseFields | ipernity_api/rest.py:62-63 | the parameters are the caller's plus `api_key`, with the resolved key cleaned and every caller value cleaned |
| Dispatch.SigningPath | ipernity_api/rest.py:68-77 | fails iff `authed` with no handler; takes the OAuth path iff the handler is OAuth, whatever the flags; takes the shared-secret path iff `signed` or `authed` otherwise, with the token iff `authed`; is unsigned otherwise |
| Dispatch.SharedSign | ipernity_api/rest.py:73-77 | succeeds iff the secret is a str and, when a token is wanted, the handler's `auth_token['token']` exists; the token lookup fails first; the fields are the parameters plus `auth_token` plus `api_sig` over them with the method |
| Dispatch.Prepare | ipernity_api/rest.py:55-77 | the missing-keys error comes before the missing-handler error |
| Dispatch.PrepareBranches | ipernity_api/rest.py:68-77 | the unsigned branch sends the cleaned parameters; the OAuth branch sends what `sign_params` returns; the shared-secret branch sends the shared signature |
| Dispatch.UnsignedFields | ipernity_api/rest.py:56-65 | an unsigned call sends exactly the caller's keys plus `api_key`, with the resolved key |
| Dispatch.OAuthFields | ipernity_api/rest.py:68-72 | a call through an OAuth handler sends `sign_params` of the cleaned parameters |
| Dispatch.SharedSignFields | ipernity_api/rest.py:74-77 | the signed fields keep `api_key`, carry the handler's `auth_token['token']` when asked for, and `api_sig` is the signature over the fields without `api_sig` |
| Dispatch.SharedSecretFields | ipernity_api/rest.py:56-77 | a shared-secret call sends the resolved `api_key`, the token when authenticated, and an `api_sig` that the receiver can recompute from the other fields and the method |
| Dispatch.SharedSecretKeys | ipernity_api/rest.py:62-77 | a shared-secret call sends exactly `api_key`, `api_sig`, the token when authenticated and the caller's keys, each caller value cleaned where not overridden |
| Dispatch.MissingKeysSendNothing | ipernity_api/rest.py:56-61 | without a key or secret, `call_api` raises the keys error, sends nothing and leaves the cache |
| Dispatch.AuthedWithoutHandlerFails | ipernity_api/rest.py:68-70 | an authenticated call with no handler anywhere raises before sending |
| Dispatch.BuildRequest | ipernity_api/rest.py:80-87 | a file is uploaded iff the request is a POST with a `file` field; it fails iff that field is not a str |
| Dispatch.Transmit | ipernity_api/rest.py:80-95 | a GET with a truthy cached entry is answered from the cache with nothing sent; any other request is sent exactly once and answered by the transport; a POST, or a GET without a cache, keeps the cache; a GET with a cache keeps a cache holding the URL unless the transport failed |
| Dispatch.CacheHitSendsNothing | ipernity_api/rest.py:93 | a truthy cached response answers the GET; nothing is sent |
| Dispatch.CacheStoresOnlyWhenAbsent | ipernity_api/rest.py:93-95 | the cache changes only for a GET whose URL was absent, by storing the new response under that URL; no other entry changes |
| Dispatch.CachedErrorRefetches | ipernity_api/rest.py:93-95 | a cached 4xx/5xx response is not used: the GET goes out again and the stored entry stays |
| Dispatch.Interpret | ipernity_api/rest.py:97-109 | a 4xx/5xx status fails before the body is read; a missing JSON body fails to decode; a success returns the body unchanged with an `api.status` other than "error" |
| Dispatch.InterpretApiError | ipernity_api/rest.py:101-107 | an API error comes only from an envelope whose status is "error", and carries `int(code)` and the message with the method and payload appended |
| Dispatch.ErrorMessage | ipernity_api/rest.py:104-105 | the API error message starts with the server's message and ends with the printed payload |
| Dispatch.SuccessEnvelopeReturned | ipernity_api/rest.py:101-109 | an envelope whose status is not "error" comes back whole |
| Dispatch.ErrorEnvelopeRaises | ipernity_api/rest.py:102-107 | an error envelope raises `IpernityAPIError(code, message + "\nAPI: …")` |
| Dispatch.Deliver | ipernity_api/rest.py:80-109 | at most one request, to the method URL, with the method's verb and the prepared fields; a POST leaves the cache; a `file` that is not a str fails with nothing sent and the cache kept |
| Dispatch.CallApi | ipernity_api/rest.py:40-109 | a preparation error sends nothing and keeps the cache; at most one request goes out, to the method URL with the prepared fields; a POST keeps the cache |
| Dispatch.CallApiAnswers | ipernity_api/rest.py:80-109 | a prepared call hitting a truthy cache entry reads that entry and sends nothing; otherwise it sends its one request and reads the transport's answer or raises its error; the cache changes only by storing a fresh answer for a GET whose URL had no entry |
| Handlers.Lookup | ipernity_api/auth.py:100-103 | the class registry: a name maps to the class with that name, and every class's name maps to that class |
| Handlers.FirstUnknown | ipernity_api/auth.py:51 | reports a keyword argument the constructor does not accept, and reports none iff all are accepted |
| Handlers.CheckPermEntries | ipernity_api/auth.py:65-69 | succeeds iff every entry has a known type and mode |
| Handlers.CheckPerms | ipernity_api/auth.py:62-69 | succeeds iff the permissions are falsy or a dict of good entries; a truthy non-dict fails at `.keys()` |
| Handlers.New | ipernity_api/auth.py:51-73 | succeeds iff every keyword is accepted, the key and secret resolve truthy and the permissions are valid; the keys error comes before the permissions check; the resolved key and secret, the permissions and `auth_token` are stored as given, frob is None, and an OAuth handler stores its `callback`, `oauth_token` and `oauth_token_secret` arguments |
| Handlers.NewBuilds | ipernity_api/auth.py:51-73 | a call that passes the checks builds the handler its arguments describe, with the explicit-or-default key and secret, and the OAuth fields for the OAuth class |
| Handlers.GetMeta | ipernity_api/auth.py:75-82 | the shared handlers' meta has exactly `api_key`, `api_secret`, `perms`, `auth_token`; the OAuth meta has `oauth_token` and `oauth_token_secret` instead of `auth_token` |
| Handlers.SharedMetaArgs | ipernity_api/auth.py:75-82 | each meta entry of a shared handler is the attribute of that name |
| Handlers.OAuthMetaArgs | ipernity_api/auth.py:332-338 | each meta entry of an OAuth handler is the attribute of that name; `auth_token` and `callback` are not saved |
| Handlers.Save | ipernity_api/auth.py:84-92 | the saved class name looks up the handler's class |
| Handlers.Load | ipernity_api/auth.py:94-103 | an unknown class name is a KeyError; a loaded handler's class has the saved name |
| Handlers.SaveLoadRoundTrip | ipernity_api/auth.py:75-103 | loading a saved valid handler gives the same class and the same meta, whatever the defaults; the attributes meta leaves out come back as None |
| Handlers.PermParams | ipernity_api/auth.py:126 | each permission key gets the prefix `perm_`, in order |
| Handlers.PermParamsValues | ipernity_api/auth.py:126 | `perm_k` is a parameter iff `k` is a permission, and it carries that permission's mode |
| Handlers.PermParamsNames | ipernity_api/auth.py:126 | a permission parameter starts with `perm_`, so it is never `api_key`, `api_sig` or `oauth_token` |
| Handlers.LinkParams | ipernity_api/auth.py:123-128 | fails iff perms is not a dict; the mapping is `api_key`, then the permissions, then the extras, with later entries winning |
| Handlers.ComposeUrl | ipernity_api/auth.py:116-135 | succeeds iff perms is a dict and the secret is a str (AttributeError otherwise); the link goes to the authorize page, and its query is the link parameters plus `api_sig` computed over them with no method |
| Handlers.ComposeUrlVerifies | ipernity_api/auth.py:129-131 | the `api_sig` in the link is the signature of the query without it, when no extra is named `api_sig` |
| Handlers.WebGetAuthUrl | ipernity_api/auth.py:178-179 | succeeds iff perms is a dict and the secret a str; the web link's query has exactly `api_key`, `api_sig` and the `perm_` keys, with the handler's key, each permission's mode under `perm_` + its type, and an `api_sig` recomputable from the rest |
| Flows.WithFrob | ipernity_api/auth.py:199 | assigning the frob changes no other attribute |
| Flows.FrobOf | ipernity_api/auth.py:193 | succeeds iff the reply has a dict under `auth` holding `frob`, and gives that value; a dict reply without `auth` is a KeyError |
| Flows.FrobOfReply | ipernity_api/auth.py:193 | the reply `{"auth": {"frob": f}}` gives `f` |
| Flows.FrobCallSigned | ipernity_api/auth.py:186-191 | without an OAuth handler installed, the frob request carries exactly `api_key` and an `api_sig` over it with the method `auth.getFrob` |
| Flows.GetToken | ipernity_api/auth.py:137-147 | the given frob, or the stored one when None, is sent; the reply's `auth` entry is returned and becomes `auth_token`, nothing else changing; a failed call leaves the handler |
| Flows.TokenCallSendsFrob | ipernity_api/auth.py:141-145 | without an OAuth handler installed, the token request carries exactly `api_key`, the cleaned frob and an `api_sig` over them with the method `auth.getToken` |
| Flows.DesktopGetAuthUrl | ipernity_api/auth.py:185-200 | a truthy frob is kept, nothing is sent and the link is `compose_url(frob=frob)`; otherwise exactly the `auth.getFrob` call's requests are sent, a failed call or a reply without `auth.frob` leaves the handler and raises, and a good reply stores its frob and links with it |
| Flows.DesktopFrobReused | ipernity_api/auth.py:197-200 | after a successful call that stored a truthy frob, a second call sends nothing and returns the same link, under any transport and cache |
| Flows.FrobLinkFields | ipernity_api/auth.py:116-135 | a link composed with a frob carries that frob and the handler's key, and an `api_sig` over the rest |
| Flows.DesktopUrlCarriesFrob | ipernity_api/auth.py:197-200 | the desktop link carries the stored frob, the key, and a recomputable `api_sig` |
| Percent.CharUtf8 | ipernity_api/auth.py:209 | one to four bytes per character; ASCII is its own byte; non-ASCII bytes are all at least 128 |
| Percent.Escape | ipernity_api/auth.py:207-209 | the output contains only unreserved characters and `%` |
| Percent.EscapedIsPlain | ipernity_api/auth.py:207-209 | escaped text is ASCII without `&` or `=` |
| Percent.EscapeKeepsUnreserved | ipernity_api/auth.py:207-209 | letters, digits and `-._~` pass through unchanged |
| Percent.EscapeReservedAscii | ipernity_api/auth.py:207-209 | any other ASCII character becomes `%` and two uppercase hex digits |
| Percent.EscapeSlash | ipernity_api/auth.py:207-209 | `/` is escaped to `%2F` |
| Percent.EscapeAppend | ipernity_api/auth.py:207-209 | escaping distributes over concatenation |
| Percent.DecodeEscape | ipernity_api/auth.py:207-209 | percent-decoding the escape of a string gives its UTF-8 bytes |
| OAuth.GenerateNonce | ipernity_api/auth.py:220-222 | `length` decimal digits, the i-th being the i-th random draw |
| OAuth.GenerateTimestamp | ipernity_api/auth.py:225-227 | the text parses back to the clock's whole seconds |
| OAuth.EscapedPairs | ipernity_api/auth.py:247-248 | one pair per entry, the escaped key and the escaped `str()` of the value |
| OAuth.SortedPairsOrdered | ipernity_api/auth.py:241-250 | the sorted pairs are the escaped pairs without `oauth_signature`, rearranged into key-then-value order |
| OAuth.NormalizedParses | ipernity_api/auth.py:239-252 | splitting the normalized string on `&` and `=` gives back the sorted escaped pairs, none of them for `oauth_signature` |
| OAuth.NormalizedOrderFree | ipernity_api/auth.py:247-252 | two dicts with the same contents normalize to the same string |
| OAuth.NormalizedIgnoresSignature | ipernity_api/auth.py:241-245 | adding or replacing `oauth_signature` does not change the normalized string |
| OAuth.EscapeValue | ipernity_api/auth.py:258-260 | only a str or bytes can be escaped; a str escapes to `Escape(s)`; the output is ASCII without `&` |
| OAuth.SigningKey | ipernity_api/auth.py:258-260 | succeeds iff the secret can be escaped and so can a truthy token; the key is ASCII and splits on `&` into the escaped secret and the escaped token, or empty without a token |
| OAuth.BaseString | ipernity_api/auth.py:266-269 | the base string is ASCII |
| OAuth.BaseStringParts | ipernity_api/auth.py:266-269 | it splits on `&` into exactly the verb (POST or GET), the escaped URL and the escaped normalized parameters |
| OAuth.AsciiBytes | ipernity_api/auth.py:276 | `bytes(key, 'ascii')` of an ASCII key is its UTF-8 encoding |
| OAuth.BuildSignature | ipernity_api/auth.py:254-282 | succeeds iff the key can be built; the signature is base64 of HMAC-SHA1 under the key over the base string, with the newline dropped |
| OAuth.SignatureOrderFree | ipernity_api/auth.py:247-269 | two dicts with the same contents in any insertion order give the same signature |
| OAuth.SignatureIgnoresOldSignature | ipernity_api/auth.py:241-245 | adding or replacing `oauth_signature` among the parameters does not change the signature |
| Sorting.SortPermutationInvariant | ipernity_api/auth.py:250 | sorting two permutations of each other gives the same list, so any correct sort agrees with `list.sort` |
| Sorting.PairLeIsTotalOrder | ipernity_api/auth.py:250 | the comparison of pairs of str (key, then value) is a total order |
| Handlers.OAuthBase | ipernity_api/auth.py:349-355 | the five OAuth protocol parameters, in order |
| Handlers.OAuthBaseValues | ipernity_api/auth.py:349-355 | the protocol parameters map the consumer key, the stored token, `HMAC-SHA1`, the clock's timestamp and an eight-digit nonce |
| Handlers.SignInput | ipernity_api/auth.py:349-361 | the protocol parameters overlaid with the caller's, minus `api_key` |
| Handlers.SignParams | ipernity_api/auth.py:340-366 | succeeds iff the key from the secret and the token secret can be built; the result is the signing input plus `oauth_signature` computed over it |
| Handlers.SignParamsContents | ipernity_api/auth.py:349-366 | `api_key` is gone; the keys are the protocol parameters, the caller's, and `oauth_signature`; caller values win; protocol values stay where not overridden |
| Handlers.NormalizedAfterResign | ipernity_api/auth.py:241-245 | deleting and re-adding `oauth_signature` leaves the normalized string unchanged |
| Handlers.SignParamsVerifies | ipernity_api/auth.py:363-364 | signing the returned parameters again gives the `oauth_signature` they carry |
| Handlers.RequestBase | ipernity_api/auth.py:289-294 | the four protocol parameters of `_request`, in order |
| Handlers.RequestBaseValues | ipernity_api/auth.py:289-294 | the protocol parameters of `_request` map the consumer key, `HMAC-SHA1`, the clock's timestamp and an eight-digit nonce |
| Handlers.RequestParams | ipernity_api/auth.py:289-302 | `oauth_callback` is present iff the callback is truthy and not verifying; `oauth_token` is present iff verifying, with the stored token; the token secret is the stored one iff verifying |
| Handlers.RequestParamsContents | ipernity_api/auth.py:289-302 | the parameters are exactly the protocol parameters with their values, the callback (with its value) when set and not verifying, and the token when verifying |
| Handlers.RequestQuery | ipernity_api/auth.py:304-307 | succeeds iff the signing key can be built; the query carries `oauth_signature`, and without it is exactly the request parameters |
| Handlers.RequestQueryVerifies | ipernity_api/auth.py:304-307 | the `oauth_signature` in the query is the signature over the query itself, with the request's token secret, as GET |
| Handlers.ApplyTokenReply | ipernity_api/auth.py:314-315 | `oauth_token` is stored before `oauth_token_secret` is read: a reply missing the secret leaves the new token in place and raises |
| Handlers.OAuthRequest | ipernity_api/auth.py:284-315 | signing failure leaves the handler; a failed fetch leaves the handler and raises its error; an answered fetch succeeds iff the reply has both `oauth_token` and `oauth_token_secret`, and then stores exactly that pair; the keys, permissions and callback never change |
| Handlers.AuthorizeUrl | ipernity_api/auth.py:321-326 | the authorize link holds exactly `oauth_token` and the `perm_` keys; `oauth_token` is the stored token and each `perm_k` carries `perms[k]`; a non-dict perms fails with `AttributeError` on `.items()` |
| Handlers.OAuthGetAuthUrl | ipernity_api/auth.py:317-326 | fetches a request token first; a failed fetch is raised before any link is built; otherwise the result is the authorize link for the handler as updated |
| Handlers.OAuthAuthUrlContents | ipernity_api/auth.py:317-326 | with dict perms, a link is returned iff the request-token call succeeded; it goes to the authorize page and holds exactly the request token just stored and the `perm_` keys, each `perm_k` carrying `perms[k]` |
| Handlers.OAuthVerify | ipernity_api/auth.py:328-330 | the access request carries the stored token, no callback, and was answered |
| Handlers.VerifyStoresToken | ipernity_api/auth.py:328-330 | a successful exchange stores the reply's access token and secret; a failed one keeps the token secret; keys, permissions and callback never change |

## Left out

- HTTP: `requests.post`/`get`, `urlopen` and the opening of an uploaded file are a `Transport` or `TokenFetch` parameter. A response is a status and an optional decoded JSON body.
- `save`/`load` file I/O and the JSON text: the record is the `{class, meta}` pair itself, so values JSON cannot hold are not rejected.
- `urllib.parse.urlencode` of the final URLs and `parse_qsl` of token replies: links are an endpoint with a parameter dict, and replies are a dict of str.
- MD5, HMAC-SHA1 and base64: uninterpreted functions; only their inputs and the hex encoding of MD5 are modelled.
- `time.time()` and `random.randint`: a `Clock` supplies the seconds and the digit draws.
- `getUser`: it goes through the `Auth`/`User` domain objects and remote calls, which are not part of this model.
- `SimpleCache` and Django cache objects: a cache is a map from URL to response; a given cache object is a given map.
- Logging, including `log.debug('sending file ' + path)`. Its only modelled effect is the error when the path is not a str.
- The Unicode printable table of `repr`: characters above U+00FF count as printable.
- `int()` of text with surrounding whitespace or underscores: only digit strings with an optional `+` or `-` sign parse.
- Values other than None, bool, int, str, bytes, list and dict (floats, tuples, objects) are not representable.
- Dispatch.Interpret: a non-str `message` is modelled as a TypeError, although a list message would be extended in place instead.
- Handlers.Load: a class name found in the module's globals other than the four handler classes is modelled as a KeyError.
- Handlers.New: positional constructor arguments are not modelled; only keyword arguments are.
- `AUTH_HANDLER`, `CACHE` and the `keys` defaults are threaded through as explicit state, not mutated globally.
- Abstract `AuthHandler.get_auth_url`/`sign_params`: the base class is modelled as a shared handler with no link of its own.
- Percent.CharUtf8: a Dafny `char` is a Unicode scalar value, so lone surrogates, which Python refuses to encode, cannot occur.
