/**
 * `encodeURIComponent`: a string's UTF-8 bytes, each written as `%XX`
 * (upper-case hex) unless it is one of the unreserved ASCII characters,
 * which stay as they are. The decoder back to bytes is the partner the
 * round trip is proved against.
 */
module UriComponent {
  import opened Text

  newtype byte = x: int | 0 <= x < 256

  /** The characters `encodeURIComponent` leaves alone. */
  predicate Unreserved(c: char) {
    ('A' <= c <= 'Z') || ('a' <= c <= 'z') || ('0' <= c <= '9') || c in "-_.!~*'()"
  }

  predicate IsHexUpper(c: char) {
    ('0' <= c <= '9') || ('A' <= c <= 'F')
  }

  /** The UTF-8 encoding of one Unicode scalar value. */
  function Utf8(c: char): (bs: seq<byte>)
    ensures 1 <= |bs| <= 4
    ensures |bs| == 1 <==> c as int < 0x80
    ensures |bs| == 1 ==> bs[0] as int == c as int
  {
    var cp := c as int;
    if cp < 0x80 then [cp as byte]
    else if cp < 0x800 then [(0xC0 + cp / 64) as byte, (0x80 + cp % 64) as byte]
    else if cp < 0x10000 then [(0xE0 + cp / 4096) as byte, (0x80 + (cp / 64) % 64) as byte, (0x80 + cp % 64) as byte]
    else [(0xF0 + cp / 262144) as byte, (0x80 + (cp / 4096) % 64) as byte, (0x80 + (cp / 64) % 64) as byte, (0x80 + cp % 64) as byte]
  }

  function Utf8String(s: string): seq<byte> {
    if s == [] then [] else Utf8(s[0]) + Utf8String(s[1..])
  }

  function HexDigit(n: int): (c: char)
    requires 0 <= n < 16
    ensures IsHexUpper(c)
  {
    if n < 10 then ('0' as int + n) as char else ('A' as int + n - 10) as char
  }

  function HexValue(c: char): (n: int)
    requires IsHexUpper(c)
    ensures 0 <= n < 16
  {
    if c <= '9' then c as int - '0' as int else c as int - 'A' as int + 10
  }

  lemma HexRoundTrip(n: int)
    requires 0 <= n < 16
    ensures HexValue(HexDigit(n)) == n
  {
  }

  /** One byte as it appears in the output. */
  function EncodeByte(b: byte): (t: string)
    ensures |t| == 1 || |t| == 3
    ensures |t| == 1 <==> Unreserved(b as int as char)
  {
    if Unreserved(b as int as char) then [b as int as char]
    else ['%', HexDigit(b as int / 16), HexDigit(b as int % 16)]
  }

  function EncodeBytes(bs: seq<byte>): string {
    if bs == [] then [] else EncodeByte(bs[0]) + EncodeBytes(bs[1..])
  }

  /** `encodeURIComponent(s)`. */
  function Encode(s: string): string {
    EncodeBytes(Utf8String(s))
  }

  /** Reads percent-encoded text back into bytes; None when it is not the
      output of `EncodeBytes`. */
  function DecodeBytes(t: string): Option<seq<byte>>
    decreases |t|
  {
    if t == [] then Some([])
    else if t[0] == '%' then
      if |t| >= 3 && IsHexUpper(t[1]) && IsHexUpper(t[2]) then
        var rest := DecodeBytes(t[3..]);
        if rest.Some? then Some([(HexValue(t[1]) * 16 + HexValue(t[2])) as byte] + rest.value) else None
      else None
    else if Unreserved(t[0]) then
      var rest := DecodeBytes(t[1..]);
      if rest.Some? then Some([t[0] as int as byte] + rest.value) else None
    else None
  }

  lemma DecodeEncodeByte(b: byte, rest: string)
    ensures DecodeBytes(EncodeByte(b) + rest) ==
      if DecodeBytes(rest).Some? then Some([b] + DecodeBytes(rest).value) else None
  {
    if Unreserved(b as int as char) {
      DecodeUnreservedByte(b, rest);
    } else {
      DecodePercentByte(b, rest);
    }
  }

  lemma DecodeUnreservedByte(b: byte, rest: string)
    requires Unreserved(b as int as char)
    ensures DecodeBytes([b as int as char] + rest) ==
      if DecodeBytes(rest).Some? then Some([b] + DecodeBytes(rest).value) else None
  {
    var t := [b as int as char] + rest;
    assert t[0] != '%' && t[1..] == rest;
  }

  lemma DecodePercentByte(b: byte, rest: string)
    requires !Unreserved(b as int as char)
    ensures DecodeBytes(['%', HexDigit(b as int / 16), HexDigit(b as int % 16)] + rest) ==
      if DecodeBytes(rest).Some? then Some([b] + DecodeBytes(rest).value) else None
  {
    var hi, lo := b as int / 16, b as int % 16;
    var t := ['%', HexDigit(hi), HexDigit(lo)] + rest;
    assert t[0] == '%' && t[1] == HexDigit(hi) && t[2] == HexDigit(lo) && t[3..] == rest;
    HexRoundTrip(hi);
    HexRoundTrip(lo);
    assert HexValue(t[1]) * 16 + HexValue(t[2]) == b as int;
  }

  /** Decoding undoes the byte encoding. */
  lemma {:induction false} DecodeEncodeBytes(bs: seq<byte>)
    ensures DecodeBytes(EncodeBytes(bs)) == Some(bs)
  {
    if bs != [] {
      DecodeEncodeBytes(bs[1..]);
      DecodeEncodeByte(bs[0], EncodeBytes(bs[1..]));
      assert EncodeBytes(bs) == EncodeByte(bs[0]) + EncodeBytes(bs[1..]);
      assert bs == [bs[0]] + bs[1..];
    }
  }

  /** The output is made of unreserved characters, `%` and upper-case hex
      digits only: no space, `&`, `=`, `#` or `?` survives. */
  lemma {:induction false} EncodedIsSafe(bs: seq<byte>)
    ensures forall i :: 0 <= i < |EncodeBytes(bs)| ==>
      Unreserved(EncodeBytes(bs)[i]) || EncodeBytes(bs)[i] == '%' || IsHexUpper(EncodeBytes(bs)[i])
  {
    if bs != [] {
      EncodedIsSafe(bs[1..]);
      var head := EncodeByte(bs[0]);
      var tail := EncodeBytes(bs[1..]);
      assert EncodeBytes(bs) == head + tail;
      forall i | 0 <= i < |head + tail|
        ensures Unreserved((head + tail)[i]) || (head + tail)[i] == '%' || IsHexUpper((head + tail)[i])
      {
        if i >= |head| {
          assert (head + tail)[i] == tail[i - |head|];
        }
      }
    }
  }

  /** A string of unreserved characters is its own encoding. */
  lemma {:induction false} UnreservedUnchanged(s: string)
    requires forall i :: 0 <= i < |s| ==> Unreserved(s[i])
    ensures Encode(s) == s
  {
    if s != [] {
      UnreservedUnchanged(s[1..]);
      assert Utf8(s[0]) == [s[0] as int as byte];
      assert Utf8String(s) == [s[0] as int as byte] + Utf8String(s[1..]);
      assert EncodeBytes([s[0] as int as byte] + Utf8String(s[1..])) == [s[0]] + Encode(s[1..]) by {
        var bs := [s[0] as int as byte] + Utf8String(s[1..]);
        assert bs[1..] == Utf8String(s[1..]);
      }
    }
  }
}
