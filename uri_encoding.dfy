/**
 * JavaScript's `encodeURIComponent`, which the gallery service uses to pass a
 * storage address as one query parameter of the image proxy, and a decoder
 * that inverts it (what the proxy's query-string parsing does).
 *
 * A `char` is a Unicode scalar value; it is encoded as UTF-8 and each byte
 * written as `%` and two upper-case hexadecimal digits, except the
 * characters that pass unchanged: A-Z a-z 0-9 - _ . ! ~ * ' ( ).
 */
module UriEncoding {
  import opened Wrappers

  predicate Unreserved(c: char)
  {
    || ('A' <= c <= 'Z') || ('a' <= c <= 'z') || ('0' <= c <= '9')
    || c == '-' || c == '_' || c == '.' || c == '!' || c == '~' || c == '*' || c == '\'' || c == '(' || c == ')'
  }

  predicate IsByte(b: int) { 0 <= b < 256 }

  predicate IsScalar(cp: int)
  {
    (0 <= cp < 0xD800) || (0xE000 <= cp < 0x110000)
  }

  /** The UTF-8 bytes of a scalar value. */
  function Utf8(c: char): (bs: seq<int>)
    ensures 1 <= |bs| <= 4
    ensures forall i :: 0 <= i < |bs| ==> IsByte(bs[i])
  {
    var cp := c as int;
    if cp < 0x80 then [cp]
    else if cp < 0x800 then [0xC0 + cp / 64, 0x80 + cp % 64]
    else if cp < 0x10000 then [0xE0 + cp / 4096, 0x80 + (cp / 64) % 64, 0x80 + cp % 64]
    else [0xF0 + cp / 262144, 0x80 + (cp / 4096) % 64, 0x80 + (cp / 64) % 64, 0x80 + cp % 64]
  }

  function HexDigit(n: int): (c: char)
    requires 0 <= n < 16
  {
    if n < 10 then ('0' as int + n) as char else ('A' as int + n - 10) as char
  }

  predicate IsHex(c: char)
  {
    ('0' <= c <= '9') || ('A' <= c <= 'F') || ('a' <= c <= 'f')
  }

  function HexValue(c: char): (n: int)
    requires IsHex(c)
    ensures 0 <= n < 16
  {
    if '0' <= c <= '9' then c as int - '0' as int
    else if 'A' <= c <= 'F' then c as int - 'A' as int + 10
    else c as int - 'a' as int + 10
  }

  lemma HexRoundTrip(n: int)
    requires 0 <= n < 16
    ensures IsHex(HexDigit(n)) && HexValue(HexDigit(n)) == n
  {
  }

  /** One byte as `%XY`. */
  function PercentByte(b: int): (t: string)
    requires IsByte(b)
    ensures |t| == 3 && t[0] == '%'
  {
    ['%', HexDigit(b / 16), HexDigit(b % 16)]
  }

  function PercentBytes(bs: seq<int>): string
    requires forall i :: 0 <= i < |bs| ==> IsByte(bs[i])
  {
    if bs == [] then "" else PercentByte(bs[0]) + PercentBytes(bs[1..])
  }

  function EncodeChar(c: char): string
  {
    if Unreserved(c) then [c] else PercentBytes(Utf8(c))
  }

  /** `encodeURIComponent(s)`. */
  function EncodeURIComponent(s: string): string
  {
    if s == [] then "" else EncodeChar(s[0]) + EncodeURIComponent(s[1..])
  }

  /** What an encoded text is made of: unreserved characters, `%` and upper-case hexadecimal digits. */
  predicate EncodedChar(c: char)
  {
    Unreserved(c) || c == '%'
  }

  lemma {:induction false} PercentBytesCharset(bs: seq<int>)
    requires forall i :: 0 <= i < |bs| ==> IsByte(bs[i])
    ensures forall i :: 0 <= i < |PercentBytes(bs)| ==> EncodedChar(PercentBytes(bs)[i])
  {
    if bs != [] {
      PercentBytesCharset(bs[1..]);
    }
  }

  /**
   * The encoding only ever produces unreserved characters and `%`: in
   * particular no `&`, `=`, `#`, `?`, `+` or space, so the address stays one
   * query parameter. It never shortens the text.
   */
  lemma {:induction false} EncodeCharset(s: string)
    ensures forall i :: 0 <= i < |EncodeURIComponent(s)| ==> EncodedChar(EncodeURIComponent(s)[i])
    ensures |EncodeURIComponent(s)| >= |s|
  {
    if s != [] {
      EncodeCharset(s[1..]);
      if !Unreserved(s[0]) {
        PercentBytesCharset(Utf8(s[0]));
      }
    }
  }

  // ---------------------------------------------------------------------------
  // Decoding: first `%XY` escapes into bytes, then bytes into characters
  // ---------------------------------------------------------------------------

  datatype Unit = Raw(c: char) | Byte(b: int)

  /** Each `%` followed by two hexadecimal digits becomes a byte; every other character stays. */
  function Unescape(t: string): seq<Unit>
  {
    if t == [] then []
    else if |t| >= 3 && t[0] == '%' && IsHex(t[1]) && IsHex(t[2]) then
      [Byte(16 * HexValue(t[1]) + HexValue(t[2]))] + Unescape(t[3..])
    else [Raw(t[0])] + Unescape(t[1..])
  }

  predicate Continuation(u: Unit)
  {
    u.Byte? && 0x80 <= u.b < 0xC0
  }

  /**
   * Bytes into characters: a lead byte and its continuation bytes must form
   * one scalar value, in its shortest form (an overlong form is refused).
   */
  function Group(us: seq<Unit>): Option<string>
    decreases |us|
  {
    if us == [] then Some([])
    else match us[0]
      case Raw(c) => PrependTo(c, Group(us[1..]))
      case Byte(b0) =>
        if 0 <= b0 < 0x80 then PrependTo(b0 as char, Group(us[1..]))
        else if 0xC0 <= b0 < 0xE0 && |us| >= 2 && Continuation(us[1]) then
          var cp := (b0 - 0xC0) * 64 + (us[1].b - 0x80);
          if 0x80 <= cp && IsScalar(cp) then PrependTo(cp as char, Group(us[2..])) else None
        else if 0xE0 <= b0 < 0xF0 && |us| >= 3 && Continuation(us[1]) && Continuation(us[2]) then
          var cp := (b0 - 0xE0) * 4096 + (us[1].b - 0x80) * 64 + (us[2].b - 0x80);
          if 0x800 <= cp && IsScalar(cp) then PrependTo(cp as char, Group(us[3..])) else None
        else if 0xF0 <= b0 < 0xF8 && |us| >= 4 && Continuation(us[1]) && Continuation(us[2]) && Continuation(us[3]) then
          var cp := (b0 - 0xF0) * 262144 + (us[1].b - 0x80) * 4096 + (us[2].b - 0x80) * 64 + (us[3].b - 0x80);
          if 0x10000 <= cp && IsScalar(cp) then PrependTo(cp as char, Group(us[4..])) else None
        else None
  }

  function PrependTo(c: char, rest: Option<string>): Option<string>
  {
    if rest.Some? then Some([c] + rest.value) else None
  }

  /** `decodeURIComponent(t)`: nothing when the bytes are not UTF-8. */
  function DecodeURIComponent(t: string): Option<string>
  {
    Group(Unescape(t))
  }

  function Bytes(bs: seq<int>): (us: seq<Unit>)
    ensures |us| == |bs|
    ensures forall i :: 0 <= i < |bs| ==> us[i] == Byte(bs[i])
  {
    if bs == [] then [] else [Byte(bs[0])] + Bytes(bs[1..])
  }

  function Units(c: char): seq<Unit>
  {
    if Unreserved(c) then [Raw(c)] else Bytes(Utf8(c))
  }

  function AllUnits(s: string): seq<Unit>
  {
    if s == [] then [] else Units(s[0]) + AllUnits(s[1..])
  }

  lemma PercentByteUnescapes(b: int, rest: string)
    requires IsByte(b)
    ensures Unescape(PercentByte(b) + rest) == [Byte(b)] + Unescape(rest)
  {
    HexRoundTrip(b / 16);
    HexRoundTrip(b % 16);
    var t := PercentByte(b) + rest;
    assert t[3..] == rest;
  }

  lemma {:induction false} PercentBytesUnescape(bs: seq<int>, rest: string)
    requires forall i :: 0 <= i < |bs| ==> IsByte(bs[i])
    ensures Unescape(PercentBytes(bs) + rest) == Bytes(bs) + Unescape(rest)
  {
    if bs != [] {
      var tail := PercentBytes(bs[1..]) + rest;
      calc {
        Unescape(PercentBytes(bs) + rest);
        { assert PercentBytes(bs) + rest == PercentByte(bs[0]) + tail; }
        Unescape(PercentByte(bs[0]) + tail);
        { PercentByteUnescapes(bs[0], tail); }
        [Byte(bs[0])] + Unescape(tail);
        { PercentBytesUnescape(bs[1..], rest); }
        [Byte(bs[0])] + (Bytes(bs[1..]) + Unescape(rest));
        ([Byte(bs[0])] + Bytes(bs[1..])) + Unescape(rest);
        Bytes(bs) + Unescape(rest);
      }
    } else {
      assert PercentBytes(bs) + rest == rest;
    }
  }

  lemma EncodeCharUnescapes(c: char, rest: string)
    ensures Unescape(EncodeChar(c) + rest) == Units(c) + Unescape(rest)
  {
    if Unreserved(c) {
      assert ([c] + rest)[1..] == rest;
    } else {
      PercentBytesUnescape(Utf8(c), rest);
    }
  }

  /** Undoing the escapes of an encoded text gives the units its characters were written as. */
  lemma {:induction false} UnescapeEncode(s: string)
    ensures Unescape(EncodeURIComponent(s)) == AllUnits(s)
  {
    if s != [] {
      EncodeCharUnescapes(s[0], EncodeURIComponent(s[1..]));
      UnescapeEncode(s[1..]);
    }
  }

  lemma Utf8Groups(c: char, rest: seq<Unit>)
    ensures Group(Bytes(Utf8(c)) + rest) == PrependTo(c, Group(rest))
  {
    var cp := c as int;
    if cp < 0x80 {
      assert (Bytes(Utf8(c)) + rest)[1..] == rest;
    } else if cp < 0x800 {
      Utf8Groups2(c, rest);
    } else if cp < 0x10000 {
      Utf8Groups3(c, rest);
    } else {
      Utf8Groups4(c, rest);
    }
  }

  lemma Utf8Groups2(c: char, rest: seq<Unit>)
    requires 0x80 <= c as int < 0x800
    ensures Group(Bytes(Utf8(c)) + rest) == PrependTo(c, Group(rest))
  {
    var cp := c as int;
    var us := Bytes(Utf8(c)) + rest;
    assert us[0] == Byte(0xC0 + cp / 64) && us[1] == Byte(0x80 + cp % 64);
    assert us[2..] == rest;
    assert (cp / 64) * 64 + cp % 64 == cp;
  }

  lemma Utf8Groups3(c: char, rest: seq<Unit>)
    requires 0x800 <= c as int < 0x10000
    ensures Group(Bytes(Utf8(c)) + rest) == PrependTo(c, Group(rest))
  {
    var cp := c as int;
    var us := Bytes(Utf8(c)) + rest;
    assert us[0] == Byte(0xE0 + cp / 4096) && us[1] == Byte(0x80 + (cp / 64) % 64) && us[2] == Byte(0x80 + cp % 64);
    assert us[3..] == rest;
    assert (cp / 4096) * 4096 + ((cp / 64) % 64) * 64 + cp % 64 == cp;
  }

  lemma Utf8Groups4(c: char, rest: seq<Unit>)
    requires 0x10000 <= c as int
    ensures Group(Bytes(Utf8(c)) + rest) == PrependTo(c, Group(rest))
  {
    var cp := c as int;
    var us := Bytes(Utf8(c)) + rest;
    assert us[0] == Byte(0xF0 + cp / 262144) && us[1] == Byte(0x80 + (cp / 4096) % 64)
      && us[2] == Byte(0x80 + (cp / 64) % 64) && us[3] == Byte(0x80 + cp % 64);
    assert us[4..] == rest;
    assert (cp / 262144) * 262144 + ((cp / 4096) % 64) * 4096 + ((cp / 64) % 64) * 64 + cp % 64 == cp;
  }

  lemma UnitsGroup(c: char, rest: seq<Unit>)
    ensures Group(Units(c) + rest) == PrependTo(c, Group(rest))
  {
    if Unreserved(c) {
      assert ([Raw(c)] + rest)[1..] == rest;
    } else {
      Utf8Groups(c, rest);
    }
  }

  lemma {:induction false} GroupAllUnits(s: string)
    ensures Group(AllUnits(s)) == Some(s)
  {
    if s != [] {
      UnitsGroup(s[0], AllUnits(s[1..]));
      GroupAllUnits(s[1..]);
      assert [s[0]] + s[1..] == s;
    }
  }

  /** Overlong encodings of U+0000 in two and three bytes are not UTF-8, and decode to nothing. */
  lemma OverlongRefused()
    ensures DecodeURIComponent("%C0%80") == None
    ensures DecodeURIComponent("%E0%80%80") == None
  {
    var two, three := "%C0%80", "%E0%80%80";
    assert two[3..][3..] == [];
    assert Unescape(two) == [Byte(0xC0), Byte(0x80)];
    assert three[3..][3..][3..] == [];
    assert Unescape(three) == [Byte(0xE0), Byte(0x80), Byte(0x80)];
  }

  /** Decoding an encoded text gives it back. */
  lemma DecodeEncode(s: string)
    ensures DecodeURIComponent(EncodeURIComponent(s)) == Some(s)
  {
    UnescapeEncode(s);
    GroupAllUnits(s);
  }
}
