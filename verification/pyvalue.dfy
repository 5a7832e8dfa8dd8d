/** The Python values the client handles (parameters, JSON replies, handler
    fields), their truthiness, `str()` and `repr()`, and the exceptions raised. */
module PyValue {
  import opened Wrappers
  import opened Dicts

  type Byte = b: int | 0 <= b < 256

  datatype Value =
    | PyNone
    | PyBool(b: bool)
    | PyInt(n: int)
    | PyStr(s: string)
    | PyBytes(bytes: seq<Byte>)
    | PyList(items: seq<Value>)
    | PyDict(entries: Dict<Value>)

  /** The exceptions the modelled code raises or lets through. */
  datatype Error =
    | IpernityError(message: string)
    | IpernityAPIError(code: int, message: string)
    | AuthError(message: string)
    | HTTPError(status: int)
    | JSONDecodeError
    | URLError
    | KeyError(key: string)
    | TypeError(message: string)
    | AttributeError(name: string)
    | ValueError(message: string)

  /** Python's `bool(v)`. */
  predicate Truthy(v: Value) {
    match v
    case PyNone => false
    case PyBool(b) => b
    case PyInt(n) => n != 0
    case PyStr(s) => s != ""
    case PyBytes(bs) => bs != []
    case PyList(items) => items != []
    case PyDict(entries) => entries != []
  }

  /** Python's `x or y`. */
  function Or(x: Value, y: Value): Value {
    if Truthy(x) then x else y
  }

  // ---- decimal integers -------------------------------------------------

  predicate IsDigit(c: char) {
    '0' <= c <= '9'
  }

  function DigitChar(d: int): (c: char)
    requires 0 <= d < 10
    ensures IsDigit(c) && DigitValue(c) == d
  {
    ('0' as int + d) as char
  }

  function DigitValue(c: char): (d: int)
    requires IsDigit(c)
    ensures 0 <= d < 10
  {
    c as int - '0' as int
  }

  /** Decimal digits of a natural number, most significant first, no leading zeros. */
  function NatStr(n: nat): (s: string)
    ensures |s| >= 1
    ensures forall i :: 0 <= i < |s| ==> IsDigit(s[i])
    decreases n
  {
    if n < 10 then [DigitChar(n)] else NatStr(n / 10) + [DigitChar(n % 10)]
  }

  /** Python's `str(i)` for an int. */
  function IntStr(i: int): string {
    if i < 0 then "-" + NatStr(-i) else NatStr(i)
  }

  function ParseNat(s: string): nat
    requires |s| >= 1
    requires forall i :: 0 <= i < |s| ==> IsDigit(s[i])
    decreases |s|
  {
    var n := |s| - 1;
    if n == 0 then DigitValue(s[0]) else ParseNat(s[..n]) * 10 + DigitValue(s[n])
  }

  predicate AllDigits(s: string) {
    |s| >= 1 && forall i :: 0 <= i < |s| ==> IsDigit(s[i])
  }

  /** Python's `int(s)` on an optionally signed run of ASCII digits. */
  function ParseInt(s: string): Option<int> {
    if |s| >= 1 && (s[0] == '-' || s[0] == '+') then
      if AllDigits(s[1..]) then
        var magnitude: int := ParseNat(s[1..]);
        Some(if s[0] == '-' then -magnitude else magnitude)
      else None
    else if AllDigits(s) then Some(ParseNat(s))
    else None
  }

  lemma {:induction false} ParseNatStr(n: nat)
    ensures ParseNat(NatStr(n)) == n
    decreases n
  {
    if n >= 10 {
      var s := NatStr(n);
      assert s[..|s| - 1] == NatStr(n / 10);
      ParseNatStr(n / 10);
    }
  }

  /** Reading back `str(i)` gives `i`: the decimal rendering loses nothing. */
  lemma ParseIntStr(i: int)
    ensures ParseInt(IntStr(i)) == Some(i)
  {
    var s := IntStr(i);
    if i < 0 {
      assert s[0] == '-';
      assert s[1..] == NatStr(-i);
      assert AllDigits(s[1..]);
      ParseNatStr(-i);
    } else {
      assert s == NatStr(i);
      assert IsDigit(s[0]);
      assert AllDigits(s);
      ParseNatStr(i);
    }
  }

  // ---- repr -------------------------------------------------------------

  function HexLower(d: int): char
    requires 0 <= d < 16
  {
    if d < 10 then ('0' as int + d) as char else ('a' as int + d - 10) as char
  }

  /** The `\xhh` escape repr uses for a code below 256. */
  function HexEscape(n: int): string
    requires 0 <= n < 256
  {
    ['\\', 'x', HexLower(n / 16), HexLower(n % 16)]
  }

  /** Code points str.isprintable() rejects, as far as they are modelled:
      the C0 and C1 controls, DEL, NO-BREAK SPACE and SOFT HYPHEN. */
  predicate NonPrintable(c: char) {
    c as int < 0x20 || (0x7f <= c as int <= 0xa0) || c as int == 0xad
  }

  function ReprChar(c: char, quote: char): string {
    if c == quote || c == '\\' then ['\\', c]
    else if c == '\t' then "\\t"
    else if c == '\n' then "\\n"
    else if c == '\r' then "\\r"
    else if NonPrintable(c) then HexEscape(c as int)
    else [c]
  }

  function ReprChars(s: string, quote: char): string {
    if s == [] then "" else ReprChar(s[0], quote) + ReprChars(s[1..], quote)
  }

  /** repr() of a str: single quotes unless the text has ' and no ". */
  function ReprStr(s: string): string {
    var q := if '\'' in s && '"' !in s then '"' else '\'';
    [q] + ReprChars(s, q) + [q]
  }

  function ReprByte(b: Byte, quote: char): string {
    if b == quote as int || b == '\\' as int then ['\\', b as char]
    else if b == 9 then "\\t"
    else if b == 10 then "\\n"
    else if b == 13 then "\\r"
    else if b < 0x20 || b >= 0x7f then HexEscape(b)
    else [b as char]
  }

  function ReprBytesBody(bs: seq<Byte>, quote: char): string {
    if bs == [] then "" else ReprByte(bs[0], quote) + ReprBytesBody(bs[1..], quote)
  }

  /** repr() of bytes: b'...' with the same quote rule as str. */
  function ReprBytes(bs: seq<Byte>): string {
    var q := if 39 in bs && 34 !in bs then '"' else '\'';
    ['b', q] + ReprBytesBody(bs, q) + [q]
  }

  /** Python's `repr(v)`. */
  function Repr(v: Value): string
    decreases v, 1, 0
  {
    match v
    case PyNone => "None"
    case PyBool(b) => if b then "True" else "False"
    case PyInt(n) => IntStr(n)
    case PyStr(s) => ReprStr(s)
    case PyBytes(bs) => ReprBytes(bs)
    case PyList(items) => "[" + ReprItems(v, 0) + "]"
    case PyDict(entries) => "{" + ReprEntries(v, 0) + "}"
  }

  function ReprItems(v: Value, i: nat): string
    requires v.PyList? && i <= |v.items|
    decreases v, 0, |v.items| - i
  {
    if i == |v.items| then ""
    else (if i > 0 then ", " else "") + Repr(v.items[i]) + ReprItems(v, i + 1)
  }

  function ReprEntries(v: Value, i: nat): string
    requires v.PyDict? && i <= |v.entries|
    decreases v, 0, |v.entries| - i
  {
    if i == |v.entries| then ""
    else
      assert v.entries[i] in v.entries;
      (if i > 0 then ", " else "") + ReprStr(v.entries[i].0) + ": " + Repr(v.entries[i].1)
      + ReprEntries(v, i + 1)
  }

  /** Python's `str(v)`: a str is itself, everything else is its repr. */
  function Show(v: Value): string {
    match v
    case PyStr(s) => s
    case _ => Repr(v)
  }

  // ---- access -----------------------------------------------------------

  /** Python's `v[key]` with a str key. */
  function Index(v: Value, key: string): (r: Result<Value, Error>)
    ensures r.Ok? <==> v.PyDict? && key in ToMap(v.entries)
    ensures r.Ok? ==> r.value == ToMap(v.entries)[key]
    ensures v.PyDict? && key !in ToMap(v.entries) ==> r == Err(KeyError(key))
  {
    match v
    case PyDict(entries) =>
      (match Get(entries, key)
       case Some(x) => Ok(x)
       case None => Err(KeyError(key)))
    case _ => Err(TypeError("object is not subscriptable by str"))
  }

  /** A value used where the source concatenates or escapes a str. */
  function AsStr(v: Value): Result<string, Error> {
    if v.PyStr? then Ok(v.s) else Err(TypeError("a str is required"))
  }

  /** Python's `int(v)`. */
  function ToInt(v: Value): Result<int, Error> {
    match v
    case PyInt(n) => Ok(n)
    case PyBool(b) => Ok(if b then 1 else 0)
    case PyStr(s) =>
      (match ParseInt(s)
       case Some(n) => Ok(n)
       case None => Err(ValueError("invalid literal for int()")))
    case PyBytes(bs) =>
      var text := seq(|bs|, i requires 0 <= i < |bs| => bs[i] as char);
      (match ParseInt(text)
       case Some(n) => Ok(n)
       case None => Err(ValueError("invalid literal for int()")))
    case _ => Err(TypeError("int() argument must be a string, a bytes-like object or a number"))
  }
}
