/** The shared-secret side of rest.py: `_clean_params` (lines 31-37) and
    `sign_keys` (lines 112-136). MD5 itself is a parameter. */
module Signer {
  import opened Wrappers
  import opened Seqs
  import opened Sorting
  import opened Dicts
  import opened PyValue
  import opened Percent

  /** What `hashlib.md5(..).digest()` returns: sixteen bytes. */
  type Digest16 = s: seq<Byte> | |s| == 16 witness seq(16, i => 0)

  // ---- _clean_params ----------------------------------------------------

  /** One value after the loop body of `_clean_params`. A bool is first set to 1/0,
      but the second test looks at the original value again, and a bool is an
      int, so the bool ends up as str(True) / str(False). */
  function CleanValue(v: Value): (r: Value)
    ensures Show(r) == Show(v)
    ensures !r.PyBool? && !r.PyInt?
    ensures v.PyBool? || v.PyInt? ==> r == PyStr(Show(v))
    ensures !v.PyBool? && !v.PyInt? ==> r == v
  {
    match v
    case PyBool(b) => PyStr(if b then "True" else "False")
    case PyInt(n) => PyStr(IntStr(n))
    case _ => v
  }

  /** `_clean_params(params)`: same keys in the same order; every value prints as before;
      no int or bool is left; every other value is untouched. */
  function CleanParams(d: Dict<Value>): (r: Dict<Value>)
    ensures Keys(r) == Keys(d)
    ensures forall i :: 0 <= i < |d| ==> Show(r[i].1) == Show(d[i].1)
    ensures forall i :: 0 <= i < |d| ==> !r[i].1.PyBool? && !r[i].1.PyInt?
    ensures forall i :: 0 <= i < |d| && !d[i].1.PyBool? && !d[i].1.PyInt? ==> r[i].1 == d[i].1
  {
    seq(|d|, i requires 0 <= i < |d| => (d[i].0, CleanValue(d[i].1)))
  }

  /** True becomes the text "True", not the "1" a reader of line 34 expects. */
  lemma CleanBoolIsWord()
    ensures CleanValue(PyBool(true)) == PyStr("True")
    ensures CleanValue(PyBool(false)) == PyStr("False")
    ensures CleanValue(PyInt(42)) == PyStr("42")
  {
    assert NatStr(42) == NatStr(4) + [DigitChar(2)];
  }

  /** Cleaning twice is cleaning once. */
  lemma CleanParamsIdempotent(d: Dict<Value>)
    ensures CleanParams(CleanParams(d)) == CleanParams(d)
  {
  }

  /** Cleaning acts on the mapping a dict denotes, key by key. */
  lemma {:induction false} CleanParamsToMap(d: Dict<Value>)
    ensures forall k :: k in ToMap(CleanParams(d)) <==> k in ToMap(d)
    ensures forall k :: k in ToMap(d) ==> ToMap(CleanParams(d))[k] == CleanValue(ToMap(d)[k])
    decreases |d|
  {
    if d != [] {
      var n := |d| - 1;
      assert CleanParams(d)[..n] == CleanParams(d[..n]);
      CleanParamsToMap(d[..n]);
    }
  }

  // ---- sign_keys --------------------------------------------------------

  /** `method if method else ''`. */
  function MethodText(apiMethod: Option<string>): string {
    match apiMethod
    case Some(m) => m
    case None => ""
  }

  /** `''.join('%s%s' % (k, m[k]) for k in ks)`. */
  function Pieces(ks: seq<string>, m: map<string, Value>): string
    requires forall k :: k in ks ==> k in m
  {
    if ks == [] then "" else ks[0] + Show(m[ks[0]]) + Pieces(ks[1..], m)
  }

  /** The keys of `d` in ascending order, as `sorted(kwargs.keys())`. */
  function SortedKeys(d: Dict<Value>): (ks: seq<string>)
    ensures multiset(ks) == multiset(Keys(d))
    ensures Sorted(ks, StrLe)
    ensures forall k :: k in ks ==> k in ToMap(d)
  {
    StrLeIsTotalOrder();
    SortSorted(Keys(d), StrLe);
    var ks := Sort(Keys(d), StrLe);
    assert forall k :: k in ks ==> k in multiset(Keys(d));
    ks
  }

  /** The text `sign_keys` hashes: each key in ascending order directly followed by
      its value, then the method (none for an authorization link), then the secret. */
  function SignatureBase(secret: string, d: Dict<Value>, apiMethod: Option<string>): (r: string)
    ensures |r| >= |secret| + |MethodText(apiMethod)|
    ensures r[|r| - |secret|..] == secret
    ensures r[|r| - |secret| - |MethodText(apiMethod)|..|r| - |secret|] == MethodText(apiMethod)
  {
    Pieces(SortedKeys(d), ToMap(d)) + MethodText(apiMethod) + secret
  }

  /** The pre-image is fixed by any ascending arrangement of the keys: each key
      followed by its value, in that order, then the method, then the secret. */
  lemma SignatureBaseOfSorted(secret: string, d: Dict<Value>, apiMethod: Option<string>, ks: seq<string>)
    requires Sorted(ks, StrLe) && multiset(ks) == multiset(Keys(d))
    ensures forall k :: k in ks ==> k in ToMap(d)
    ensures SignatureBase(secret, d, apiMethod) == Pieces(ks, ToMap(d)) + MethodText(apiMethod) + secret
  {
    assert forall k :: k in ks ==> k in multiset(Keys(d));
    StrLeIsTotalOrder();
    SortedUnique(ks, SortedKeys(d), StrLe);
  }

  /** Two dicts with the same contents sign alike, whatever their insertion order. */
  lemma SignatureBaseOrderFree(secret: string, d1: Dict<Value>, d2: Dict<Value>, apiMethod: Option<string>)
    requires Distinct(d1) && Distinct(d2)
    requires ToMap(d1) == ToMap(d2)
    ensures SignatureBase(secret, d1, apiMethod) == SignatureBase(secret, d2, apiMethod)
  {
    SameContentIsPermutation(d1, d2);
    StrLeIsTotalOrder();
    SortPermutationInvariant(Keys(d1), Keys(d2), StrLe);
  }

  /** Passing no apiMethod signs exactly like passing the empty apiMethod. */
  lemma NoMethodIsEmptyMethod(secret: string, d: Dict<Value>)
    ensures SignatureBase(secret, d, None) == SignatureBase(secret, d, Some(""))
  {
  }

  /** Without separators, different parameter sets can share one pre-image: whenever
      key and value run together alike, as in {"ab": "c"} and {"a": "bc"}, two
      different one-entry dicts give the same text before the apiMethod and secret. */
  lemma SignatureBaseCollision(secret: string, apiMethod: Option<string>, k1: string, s1: string, k2: string, s2: string)
    requires k1 != k2 && k1 + s1 == k2 + s2
    ensures ToMap([(k1, PyStr(s1))]) != ToMap([(k2, PyStr(s2))])
    ensures SignatureBase(secret, [(k1, PyStr(s1))], apiMethod) == SignatureBase(secret, [(k2, PyStr(s2))], apiMethod)
  {
    SingleEntryMap(k1, PyStr(s1));
    SingleEntryMap(k2, PyStr(s2));
    assert k1 in map[k1 := PyStr(s1)] && k1 !in map[k2 := PyStr(s2)];
    SingleEntryBase(secret, k1, PyStr(s1), apiMethod);
    SingleEntryBase(secret, k2, PyStr(s2), apiMethod);
  }

  lemma SingleEntryMap(k: string, v: Value)
    ensures ToMap([(k, v)]) == map[k := v]
  {
    assert Keys([(k, v)]) == [k];
  }

  /** A one-entry dict signs as its key, its shown value, the apiMethod and the secret. */
  lemma SingleEntryBase(secret: string, k: string, v: Value, apiMethod: Option<string>)
    ensures SignatureBase(secret, [(k, v)], apiMethod) == k + Show(v) + MethodText(apiMethod) + secret
  {
    var d: Dict<Value> := [(k, v)];
    assert Keys(d) == [k];
    var ks := SortedKeys(d);
    assert |ks| == |multiset(ks)| == 1;
    assert ks[0] in multiset(Keys(d));
    assert ks == [k];
    assert ToMap(d)[k] == v;
    assert Pieces(ks, ToMap(d)) == k + Show(v);
  }

  /** With the parameters and apiMethod fixed, the pre-image pins down the secret,
      and with the parameters and secret fixed it pins down the apiMethod. */
  lemma SignatureBaseSeparatesSecretAndMethod(d: Dict<Value>, s1: string, s2: string, m1: Option<string>, m2: Option<string>)
    ensures MethodText(m1) == MethodText(m2) && SignatureBase(s1, d, m1) == SignatureBase(s2, d, m2) ==> s1 == s2
    ensures s1 == s2 && SignatureBase(s1, d, m1) == SignatureBase(s2, d, m2) ==> MethodText(m1) == MethodText(m2)
  {
    var p := Pieces(SortedKeys(d), ToMap(d));
    if MethodText(m1) == MethodText(m2) && SignatureBase(s1, d, m1) == SignatureBase(s2, d, m2) {
      var q := p + MethodText(m1);
      assert SignatureBase(s1, d, m1) == q + s1;
      assert SignatureBase(s2, d, m2) == q + s2;
      assert (q + s1)[|q|..] == s1;
    }
    if s1 == s2 && SignatureBase(s1, d, m1) == SignatureBase(s2, d, m2) {
      assert SignatureBase(s1, d, m1) == p + MethodText(m1) + s1;
      assert |MethodText(m1)| == |MethodText(m2)|;
      assert (p + MethodText(m1) + s1)[|p|..|p| + |MethodText(m1)|] == MethodText(m1);
      assert (p + MethodText(m2) + s2)[|p|..|p| + |MethodText(m2)|] == MethodText(m2);
    }
  }

  // ---- hexdigest --------------------------------------------------------

  predicate IsLowerHex(c: char) {
    ('0' <= c <= '9') || ('a' <= c <= 'f')
  }

  /** `.hexdigest()`: two lower-case hex digits per byte. */
  function HexDigest(bs: seq<Byte>): (r: string)
    ensures |r| == 2 * |bs|
    ensures forall i :: 0 <= i < |r| ==> IsLowerHex(r[i])
  {
    if bs == [] then "" else [HexLower(bs[0] / 16), HexLower(bs[0] % 16)] + HexDigest(bs[1..])
  }

  function LowerHexValue(c: char): int
    requires IsLowerHex(c)
  {
    if c <= '9' then c as int - '0' as int else c as int - 'a' as int + 10
  }

  /** Reads a hexdigest back into bytes. */
  function HexDecode(t: string): seq<int>
    requires |t| % 2 == 0
    requires forall i :: 0 <= i < |t| ==> IsLowerHex(t[i])
  {
    if t == [] then [] else [LowerHexValue(t[0]) * 16 + LowerHexValue(t[1])] + HexDecode(t[2..])
  }

  lemma HexLowerValue(d: int)
    requires 0 <= d < 16
    ensures IsLowerHex(HexLower(d)) && LowerHexValue(HexLower(d)) == d
  {
  }

  /** The two digits written for a byte read back as that byte. */
  lemma HexPairValue(b: Byte)
    ensures IsLowerHex(HexLower(b / 16)) && IsLowerHex(HexLower(b % 16))
    ensures LowerHexValue(HexLower(b / 16)) * 16 + LowerHexValue(HexLower(b % 16)) == b
  {
    HexLowerValue(b / 16);
    HexLowerValue(b % 16);
  }

  lemma {:induction false} HexDecodeDigest(bs: seq<Byte>)
    ensures HexDecode(HexDigest(bs)) == bs
  {
    if bs != [] {
      var t := HexDigest(bs);
      var b := bs[0];
      assert t == [HexLower(b / 16), HexLower(b % 16)] + HexDigest(bs[1..]);
      assert t[2..] == HexDigest(bs[1..]);
      HexPairValue(b);
      HexDecodeDigest(bs[1..]);
      assert HexDecode(t) == [b] + HexDecode(t[2..]);
      assert bs == [b] + bs[1..];
    }
  }

  /** `sign_keys(api_secret, kwargs, apiMethod)`: the MD5 hexdigest of the UTF-8 pre-image. */
  function ApiSig(md5: seq<Byte> -> Digest16, secret: string, d: Dict<Value>, apiMethod: Option<string>): (r: string)
    ensures |r| == 32
    ensures forall i :: 0 <= i < |r| ==> IsLowerHex(r[i])
    ensures HexDecode(r) == md5(Utf8(SignatureBase(secret, d, apiMethod)))
  {
    var digest := md5(Utf8(SignatureBase(secret, d, apiMethod)));
    HexDecodeDigest(digest);
    HexDigest(digest)
  }
}
