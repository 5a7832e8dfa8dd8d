/** OAuth 1.0a request signing of auth.py (lines 207-282): nonce and timestamp,
    the normalized parameter string (section 3.4.1.3.2 of RFC 5849), the
    signature base string (section 3.4.1.1) and the HMAC-SHA1 key (section 3.4.2).
    HMAC-SHA1 and base64 are parameters. */
module OAuth {
  import opened Wrappers
  import opened Seqs
  import opened Sorting
  import opened Dicts
  import opened PyValue
  import opened Percent
  import opened Signer

  /** The foreign digest functions: MD5, HMAC-SHA1 (key, message) and
      `binascii.b2a_base64`, which ends its output with a newline. */
  datatype Crypto = Crypto(
    md5: seq<Byte> -> Digest16,
    hmacSha1: (seq<Byte>, seq<Byte>) -> seq<Byte>,
    b2aBase64: seq<Byte> -> seq<Byte>)

  type Digit = d: int | 0 <= d < 10

  /** The clock reading (`int(time.time())`) and the digits `random.randint(0, 9)` draws. */
  datatype Clock = Clock(seconds: int, draw: nat -> Digit)

  /** `generate_nonce(length)`: the i-th character is the i-th random digit. */
  function GenerateNonce(length: nat, draw: nat -> Digit): (r: string)
    ensures |r| == length
    ensures forall i :: 0 <= i < |r| ==> IsDigit(r[i]) && DigitValue(r[i]) == draw(i)
  {
    if length == 0 then "" else GenerateNonce(length - 1, draw) + [DigitChar(draw(length - 1))]
  }

  /** `generate_timestamp()`: the seconds since the epoch as decimal text. */
  function GenerateTimestamp(clock: Clock): (r: string)
    ensures ParseInt(r) == Some(clock.seconds)
  {
    ParseIntStr(clock.seconds);
    IntStr(clock.seconds)
  }

  const SignatureParam := "oauth_signature"

  /** `(escape(_utf8_str(k)), escape(_utf8_str(v)))` for every entry. */
  function EscapedPairs(d: Dict<Value>): (r: seq<(string, string)>)
    ensures |r| == |d|
    ensures forall i :: 0 <= i < |d| ==> r[i] == (Escape(d[i].0), Escape(Show(d[i].1)))
  {
    MapSeq((e: (string, Value)) => (Escape(e.0), Escape(Show(e.1))), d)
  }

  /** The escaped pairs without any old signature, sorted by key then value. */
  function SortedPairs(params: Dict<Value>): seq<(string, string)> {
    Sort(EscapedPairs(Del(params, SignatureParam)), PairLe)
  }

  /** The sorted pairs are the escaped pairs without `oauth_signature`, rearranged into
      key-then-value order. */
  lemma SortedPairsOrdered(params: Dict<Value>)
    ensures multiset(SortedPairs(params)) == multiset(EscapedPairs(Del(params, SignatureParam)))
    ensures Sorted(SortedPairs(params), PairLe)
  {
    PairLeIsTotalOrder();
    SortSorted(EscapedPairs(Del(params, SignatureParam)), PairLe);
  }

  function PairText(p: (string, string)): string {
    p.0 + "=" + p.1
  }

  /** `_normalized_parameters(params)` (auth.py:238-252): `k=v` for the sorted pairs,
      joined with "&". */
  function NormalizedParameters(params: Dict<Value>): string {
    Join(MapSeq(PairText, SortedPairs(params)), '&')
  }

  /** Reads a normalized string back into its pairs: split at "&", then at the first "=". */
  function ParseNormalized(s: string): seq<(string, string)> {
    if s == [] then [] else MapSeq(ParsePair, Split(s, '&'))
  }

  /** Splits one `k=v` text at its first "=". */
  function ParsePair(t: string): (string, string) {
    var i := FirstIndex(t, '=');
    (t[..i], if i < |t| then t[i + 1..] else "")
  }

  lemma ParsePairText(p: (string, string))
    requires PlainPair(p)
    ensures ParsePair(PairText(p)) == p
  {
    FirstIndexOfJoined(p.0, p.1, '=');
    var t := PairText(p);
    assert t == p.0 + ['='] + p.1;
    assert t[..|p.0|] == p.0;
    assert t[|p.0| + 1..] == p.1;
  }

  predicate PlainPair(p: (string, string)) {
    '&' !in p.0 && '=' !in p.0 && '&' !in p.1 && '=' !in p.1
  }

  /** Every sorted pair is escaped text, and none is the old signature. */
  lemma SortedPairsPlain(params: Dict<Value>)
    ensures forall i :: 0 <= i < |SortedPairs(params)| ==>
              PlainPair(SortedPairs(params)[i]) && SortedPairs(params)[i].0 != Escape(SignatureParam)
  {
    var d := Del(params, SignatureParam);
    var pre := EscapedPairs(d);
    var pairs := SortedPairs(params);
    forall k | 0 <= k < |pairs|
      ensures PlainPair(pairs[k]) && pairs[k].0 != Escape(SignatureParam)
    {
      assert pairs[k] in multiset(pairs);
      assert pairs[k] in multiset(pre);
      var i :| 0 <= i < |pre| && pre[i] == pairs[k];
      EscapedIsPlain(d[i].0);
      EscapedIsPlain(Show(d[i].1));
      if pairs[k].0 == Escape(SignatureParam) {
        SignatureParamIsAscii();
        EscapeInjective(d[i].0, SignatureParam);
      }
    }
  }

  /** Joined `k=v` texts of plain pairs parse back into the pairs. */
  lemma ParseJoinedPairs(pairs: seq<(string, string)>)
    requires forall i :: 0 <= i < |pairs| ==> PlainPair(pairs[i])
    ensures ParseNormalized(Join(MapSeq(PairText, pairs), '&')) == pairs
  {
    var texts := MapSeq(PairText, pairs);
    if pairs != [] {
      forall i | 0 <= i < |texts| ensures '&' !in texts[i] {
        assert PlainPair(pairs[i]);
      }
      SplitJoin(texts, '&');
      assert Join(texts, '&') != [] by {
        if |texts| == 1 {
          assert texts[0][|pairs[0].0|] == '=';
        } else {
          assert Join(texts, '&') == texts[0] + ['&'] + Join(texts[1..], '&');
        }
      }
      var parsed := ParseNormalized(Join(texts, '&'));
      assert parsed == MapSeq(ParsePair, texts);
      forall i | 0 <= i < |pairs| ensures parsed[i] == pairs[i] {
        ParsePairText(pairs[i]);
      }
    }
  }

  /** The normalized string loses nothing: it parses back into exactly the sorted,
      escaped pairs, none of them the old `oauth_signature`. */
  lemma NormalizedParses(params: Dict<Value>)
    ensures ParseNormalized(NormalizedParameters(params)) == SortedPairs(params)
    ensures forall i :: 0 <= i < |SortedPairs(params)| ==> SortedPairs(params)[i].0 != Escape(SignatureParam)
  {
    SortedPairsPlain(params);
    ParseJoinedPairs(SortedPairs(params));
  }

  lemma SignatureParamIsAscii()
    ensures IsAscii(SignatureParam)
  {
    var s := SignatureParam;
    forall i | 0 <= i < |s| ensures s[i] as int < 128 {
    }
  }

  /** No other text escapes to the same string as an ASCII text. */
  lemma EscapeInjective(s: string, ascii: string)
    requires IsAscii(ascii)
    requires Escape(s) == Escape(ascii)
    ensures s == ascii
  {
    DecodeEscape(s);
    DecodeEscape(ascii);
    Utf8AsciiInjective(s, ascii);
  }

  /** Only texts whose UTF-8 bytes agree can be equal. */
  lemma {:induction false} Utf8AsciiInjective(s: string, ascii: string)
    requires IsAscii(ascii)
    requires Utf8(s) == Utf8(ascii)
    ensures s == ascii
  {
    if ascii != [] {
      assert Utf8(ascii) == [ascii[0] as int] + Utf8(ascii[1..]);
      assert s != [];
      var c := CharUtf8(s[0]);
      assert Utf8(s) == c + Utf8(s[1..]);
      assert Utf8(s)[0] == c[0] == ascii[0] as int;
      assert s[0] as int < 128;
      assert c == [s[0] as int];
      assert Utf8(s) == [s[0] as int] + Utf8(s[1..]);
      assert s[0] as int == ascii[0] as int;
      assert Utf8(s[1..]) == Utf8(s)[1..] == Utf8(ascii)[1..] == Utf8(ascii[1..]);
      Utf8AsciiInjective(s[1..], ascii[1..]);
      assert s == [s[0]] + s[1..] && ascii == [ascii[0]] + ascii[1..];
    }
  }

  /** Two parameter dicts with the same contents normalize alike, whatever the
      insertion order. */
  lemma NormalizedOrderFree(d1: Dict<Value>, d2: Dict<Value>)
    requires Distinct(d1) && Distinct(d2)
    requires ToMap(d1) == ToMap(d2)
    ensures NormalizedParameters(d1) == NormalizedParameters(d2)
  {
    var e1 := Del(d1, SignatureParam);
    var e2 := Del(d2, SignatureParam);
    DelDistinct(d1, SignatureParam);
    DelDistinct(d2, SignatureParam);
    SameContentIsPermutation(e1, e2);
    var f := (e: (string, Value)) => (Escape(e.0), Escape(Show(e.1)));
    MapPermutation(f, e1, e2);
    assert EscapedPairs(e1) == MapSeq(f, e1);
    assert EscapedPairs(e2) == MapSeq(f, e2);
    PairLeIsTotalOrder();
    SortPermutationInvariant(EscapedPairs(e1), EscapedPairs(e2), PairLe);
  }

  lemma {:induction false} DelAfterReplace(d: Dict<Value>, k: string, v: Value)
    ensures Del(Replace(d, k, v), k) == Del(d, k)
    decreases |d|
  {
    if d != [] {
      var n := |d| - 1;
      assert Replace(d, k, v)[..n] == Replace(d[..n], k, v);
      DelAfterReplace(d[..n], k, v);
    }
  }

  /** Whatever `oauth_signature` a dict holds, or none, it does not enter the
      normalized string. */
  lemma NormalizedIgnoresSignature(d: Dict<Value>, v: Value)
    ensures NormalizedParameters(Put(d, SignatureParam, v)) == NormalizedParameters(d)
  {
    if SignatureParam in Keys(d) {
      DelAfterReplace(d, SignatureParam, v);
    } else {
      var d' := d + [(SignatureParam, v)];
      assert d'[..|d|] == d;
    }
  }

  /** `escape` on a value: a str or bytes goes through quote(), anything else is a TypeError. */
  function EscapeValue(v: Value): (r: Result<string, Error>)
    ensures r.Ok? <==> v.PyStr? || v.PyBytes?
    ensures v.PyStr? ==> r == Ok(Escape(v.s))
    ensures r.Ok? ==> IsAscii(r.value) && '&' !in r.value
  {
    match v
    case PyStr(s) => EscapedIsPlain(s); Ok(Escape(s))
    case PyBytes(bs) => Ok(EscapeBytes(bs))
    case _ => Err(TypeError("quote() expected str or bytes"))
  }

  /** The HMAC key of `_build_signature`: escape(secret) and "&", then escape(token)
      only when a token is given. */
  function SigningKey(secret: Value, token: Value): (r: Result<string, Error>)
    ensures r.Ok? <==> EscapeValue(secret).Ok? && (!Truthy(token) || EscapeValue(token).Ok?)
    ensures r.Ok? ==> IsAscii(r.value)
    ensures r.Ok? ==> Split(r.value, '&')
                      == [EscapeValue(secret).value, if Truthy(token) then EscapeValue(token).value else ""]
  {
    var head :- EscapeValue(secret);
    var tail :- if Truthy(token) then EscapeValue(token) else Ok("");
    SplitJoin([head, tail], '&');
    JoinTwo(head, tail, '&');
    Ok(head + "&" + tail)
  }

  function HttpMethodName(post: bool): string {
    if post then "POST" else "GET"
  }

  /** The signature base string: the escaped HTTP method, URL and normalized
      parameters, joined with "&". */
  function BaseString(post: bool, url: string, params: Dict<Value>): (r: string)
    ensures IsAscii(r)
  {
    var parts := [Escape(HttpMethodName(post)), Escape(url), Escape(NormalizedParameters(params))];
    EscapedIsPlain(HttpMethodName(post));
    EscapedIsPlain(url);
    EscapedIsPlain(NormalizedParameters(params));
    JoinThree(parts[0], parts[1], parts[2], '&');
    Join(parts, '&')
  }

  /** The base string splits at "&" into the method, the escaped URL and the escaped
      normalized parameters, so a receiver can take it apart again. */
  lemma BaseStringParts(post: bool, url: string, params: Dict<Value>)
    ensures Split(BaseString(post, url, params), '&')
         == [HttpMethodName(post), Escape(url), Escape(NormalizedParameters(params))]
  {
    var parts := [Escape(HttpMethodName(post)), Escape(url), Escape(NormalizedParameters(params))];
    assert Escape(HttpMethodName(post)) == HttpMethodName(post) by {
      EscapeKeepsUnreserved(HttpMethodName(post));
    }
    forall i | 0 <= i < 3 ensures '&' !in parts[i] {
      EscapedIsPlain(if i == 0 then HttpMethodName(post) else if i == 1 then url
                     else NormalizedParameters(params));
    }
    SplitJoin(parts, '&');
  }

  /** `bytes(s, 'ascii')`. */
  function AsciiBytes(s: string): (r: seq<Byte>)
    requires IsAscii(s)
    ensures r == Utf8(s)
  {
    if s == [] then [] else [s[0] as int] + AsciiBytes(s[1..])
  }

  /** `b2a_base64(...)[:-1]`: the trailing newline dropped. */
  function DropLast(bs: seq<Byte>): seq<Byte> {
    if bs == [] then [] else bs[..|bs| - 1]
  }

  /** `_build_signature(url, params, token, post)`: base64 of HMAC-SHA1 over the base
      string, keyed by the signing key. */
  function BuildSignature(crypto: Crypto, secret: Value, url: string, params: Dict<Value>,
                          token: Value, post: bool): (r: Result<seq<Byte>, Error>)
    ensures r.Ok? <==> SigningKey(secret, token).Ok?
    ensures r.Ok? ==> r.value == DropLast(crypto.b2aBase64(crypto.hmacSha1(
                        Utf8(SigningKey(secret, token).value), Utf8(BaseString(post, url, params)))))
  {
    var key :- SigningKey(secret, token);
    var raw := BaseString(post, url, params);
    Ok(DropLast(crypto.b2aBase64(crypto.hmacSha1(AsciiBytes(key), Utf8(raw)))))
  }

  /** The signature depends on the parameters only through their contents. */
  lemma SignatureOrderFree(crypto: Crypto, secret: Value, url: string,
                           d1: Dict<Value>, d2: Dict<Value>, token: Value, post: bool)
    requires Distinct(d1) && Distinct(d2)
    requires ToMap(d1) == ToMap(d2)
    ensures BuildSignature(crypto, secret, url, d1, token, post)
         == BuildSignature(crypto, secret, url, d2, token, post)
  {
    NormalizedOrderFree(d1, d2);
    assert BaseString(post, url, d1) == BaseString(post, url, d2);
  }

  /** An `oauth_signature` already among the parameters, added or replaced, does not
      change the signature. */
  lemma SignatureIgnoresOldSignature(crypto: Crypto, secret: Value, url: string,
                                     d: Dict<Value>, token: Value, post: bool, v: Value)
    ensures BuildSignature(crypto, secret, url, Put(d, SignatureParam, v), token, post)
         == BuildSignature(crypto, secret, url, d, token, post)
  {
    NormalizedIgnoresSignature(d, v);
    assert BaseString(post, url, Put(d, SignatureParam, v)) == BaseString(post, url, d);
  }
}
