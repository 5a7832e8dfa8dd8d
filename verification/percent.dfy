/** Percent-encoding as done by `escape` (auth.py): `urllib.parse.quote(s, safe='~')`
    encodes the text as UTF-8 and keeps only the unreserved characters of
    section 2.3 of RFC 3986 (ALPHA, DIGIT, "-", ".", "_", "~"); every other
    byte, "/" included, becomes "%" and two upper-case hex digits, as section 3.6
    of RFC 5849 requires. */
module Percent {
  import opened Wrappers
  import opened PyValue

  /** UTF-8 encoding of one Unicode scalar value. */
  function CharUtf8(c: char): (r: seq<Byte>)
    ensures 1 <= |r| <= 4
    ensures c as int < 128 ==> r == [c as int]
    ensures c as int >= 128 ==> forall i :: 0 <= i < |r| ==> r[i] >= 128
  {
    var n := c as int;
    if n < 0x80 then [n]
    else if n < 0x800 then [0xC0 + n / 64, 0x80 + n % 64]
    else if n < 0x10000 then [0xE0 + n / 4096, 0x80 + (n / 64) % 64, 0x80 + n % 64]
    else [0xF0 + n / 262144, 0x80 + (n / 4096) % 64, 0x80 + (n / 64) % 64, 0x80 + n % 64]
  }

  /** `s.encode('utf-8')`. */
  function Utf8(s: string): seq<Byte> {
    if s == [] then [] else CharUtf8(s[0]) + Utf8(s[1..])
  }

  lemma {:induction false} Utf8Append(a: string, b: string)
    ensures Utf8(a + b) == Utf8(a) + Utf8(b)
  {
    if a != [] {
      assert (a + b)[1..] == a[1..] + b;
      Utf8Append(a[1..], b);
    } else {
      assert a + b == b;
    }
  }

  /** Unreserved characters, section 2.3 of RFC 3986. */
  predicate Unreserved(c: char) {
    || ('A' <= c <= 'Z') || ('a' <= c <= 'z') || ('0' <= c <= '9')
    || c == '-' || c == '.' || c == '_' || c == '~'
  }

  predicate IsAscii(s: string) {
    forall i :: 0 <= i < |s| ==> s[i] as int < 128
  }

  function HexUpper(d: int): char
    requires 0 <= d < 16
  {
    if d < 10 then ('0' as int + d) as char else ('A' as int + d - 10) as char
  }

  /** One byte as quote() writes it. */
  function EscapeByte(b: Byte): string {
    if b < 128 && Unreserved(b as char) then [b as char]
    else ['%', HexUpper(b / 16), HexUpper(b % 16)]
  }

  /** `quote_from_bytes(bs, safe='~')`: only unreserved characters and "%" come out. */
  function EscapeBytes(bs: seq<Byte>): (r: string)
    ensures forall i :: 0 <= i < |r| ==> Unreserved(r[i]) || r[i] == '%'
  {
    if bs == [] then "" else EscapeByte(bs[0]) + EscapeBytes(bs[1..])
  }

  /** `escape(s)` of auth.py:207-209. */
  function Escape(s: string): (r: string)
    ensures forall i :: 0 <= i < |r| ==> Unreserved(r[i]) || r[i] == '%'
  {
    EscapeBytes(Utf8(s))
  }

  /** Escaped text is pure ASCII, so `bytes(key, 'ascii')` in `_build_signature` cannot fail,
      and it never holds the "&" or "=" that the OAuth strings use as separators. */
  lemma EscapedIsPlain(s: string)
    ensures IsAscii(Escape(s))
    ensures '&' !in Escape(s) && '=' !in Escape(s)
  {
  }

  lemma {:induction false} EscapeBytesAppend(a: seq<Byte>, b: seq<Byte>)
    ensures EscapeBytes(a + b) == EscapeBytes(a) + EscapeBytes(b)
  {
    if a != [] {
      assert (a + b)[1..] == a[1..] + b;
      EscapeBytesAppend(a[1..], b);
    } else {
      assert a + b == b;
    }
  }

  /** Escaping works character by character. */
  lemma EscapeAppend(a: string, b: string)
    ensures Escape(a + b) == Escape(a) + Escape(b)
  {
    Utf8Append(a, b);
    EscapeBytesAppend(Utf8(a), Utf8(b));
  }

  /** Text made only of unreserved characters is left as it is. */
  lemma {:induction false} EscapeKeepsUnreserved(s: string)
    requires forall i :: 0 <= i < |s| ==> Unreserved(s[i])
    ensures Escape(s) == s
  {
    if s != [] {
      assert s == [s[0]] + s[1..];
      EscapeAppend([s[0]], s[1..]);
      EscapeKeepsUnreserved(s[1..]);
    }
  }

  /** Any other ASCII character, "/" included, becomes %XX with upper-case hex. */
  lemma EscapeReservedAscii(c: char)
    requires c as int < 128 && !Unreserved(c)
    ensures Escape([c]) == ['%', HexUpper(c as int / 16), HexUpper(c as int % 16)]
  {
    assert [c][1..] == [];
    assert Utf8([c]) == [c as int];
    var b: Byte := c as int;
    assert b as char == c;
    assert [b][1..] == [];
    assert EscapeBytes([b]) == EscapeByte(b);
  }

  lemma EscapeSlash()
    ensures Escape("/") == "%2F"
  {
    EscapeReservedAscii('/');
  }

  function HexValue(c: char): Option<int> {
    if '0' <= c <= '9' then Some(c as int - '0' as int)
    else if 'A' <= c <= 'F' then Some(c as int - 'A' as int + 10)
    else if 'a' <= c <= 'f' then Some(c as int - 'a' as int + 10)
    else None
  }

  /** `urllib.parse.unquote_to_bytes` restricted to ASCII input: %XX gives one byte,
      any other ASCII character stands for itself. */
  function PercentDecode(t: string): Option<seq<Byte>>
    decreases |t|
  {
    if t == [] then Some([])
    else if t[0] == '%' then
      if |t| >= 3 && HexValue(t[1]).Some? && HexValue(t[2]).Some?
         && 0 <= HexValue(t[1]).value < 16 && 0 <= HexValue(t[2]).value < 16 then
        match PercentDecode(t[3..])
        case Some(rest) => Some([HexValue(t[1]).value * 16 + HexValue(t[2]).value] + rest)
        case None => None
      else None
    else if t[0] as int < 128 then
      match PercentDecode(t[1..])
      case Some(rest) => Some([t[0] as int] + rest)
      case None => None
    else None
  }

  lemma HexUpperValue(d: int)
    requires 0 <= d < 16
    ensures HexValue(HexUpper(d)) == Some(d)
  {
  }

  /** Decoding an escaped byte string gives the bytes back. */
  lemma {:induction false} DecodeEscapeBytes(bs: seq<Byte>)
    ensures PercentDecode(EscapeBytes(bs)) == Some(bs)
  {
    if bs != [] {
      var b := bs[0];
      var t := EscapeBytes(bs);
      DecodeEscapeBytes(bs[1..]);
      if b < 128 && Unreserved(b as char) {
        assert t[1..] == EscapeBytes(bs[1..]);
      } else {
        HexUpperValue(b / 16);
        HexUpperValue(b % 16);
        assert t[3..] == EscapeBytes(bs[1..]);
      }
      assert bs == [b] + bs[1..];
    }
  }

  /** Percent-decoding `escape(s)` gives back the UTF-8 bytes of `s`, so distinct
      texts never escape to the same string. */
  lemma DecodeEscape(s: string)
    ensures PercentDecode(Escape(s)) == Some(Utf8(s))
  {
    DecodeEscapeBytes(Utf8(s));
  }
}
