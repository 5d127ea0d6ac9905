/** The `application/x-www-form-urlencoded` serializer that `URLSearchParams`
    uses to turn a query parameter into text (section 5.2 of the WHATWG URL
    Standard): the value is encoded as UTF-8, and each byte is kept, turned
    into `+` (the space) or written as `%` and two upper-case hex digits. */
module FormUrlEncoding {
  import opened Wrappers

  newtype byte = x: int | 0 <= x < 256

  /** The bytes kept as they are: `*`, `-`, `.`, `_`, ASCII digits and letters. */
  predicate Unreserved(b: byte) {
    b == 0x2A || b == 0x2D || b == 0x2E || b == 0x5F
    || (0x30 <= b <= 0x39) || (0x41 <= b <= 0x5A) || (0x61 <= b <= 0x7A)
  }

  /** The UTF-8 encoding of one code point: one to four bytes. */
  function Utf8(c: char): (r: seq<byte>)
    ensures 1 <= |r| <= 4
    ensures |r| == 1 <==> (c as int) < 0x80
    ensures |r| == 1 ==> r[0] as int == c as int
    ensures |r| > 1 ==> forall i :: 0 <= i < |r| ==> r[i] >= 0x80
  {
    var n := c as int;
    if n < 0x80 then [n as byte]
    else if n < 0x800 then [(0xC0 + n / 0x40) as byte, (0x80 + n % 0x40) as byte]
    else if n < 0x10000 then
      [(0xE0 + n / 0x1000) as byte, (0x80 + n / 0x40 % 0x40) as byte, (0x80 + n % 0x40) as byte]
    else
      [(0xF0 + n / 0x40000) as byte, (0x80 + n / 0x1000 % 0x40) as byte,
       (0x80 + n / 0x40 % 0x40) as byte, (0x80 + n % 0x40) as byte]
  }

  function Utf8Encode(s: string): (r: seq<byte>)
    ensures |r| >= |s|
  {
    if s == [] then [] else Utf8(s[0]) + Utf8Encode(s[1..])
  }

  function HexDigit(d: int): (c: char)
    requires 0 <= d < 16
    ensures IsHexDigit(c) && HexValue(c) == d
  {
    "0123456789ABCDEF"[d]
  }

  predicate IsHexDigit(c: char) {
    ('0' <= c <= '9') || ('A' <= c <= 'F') || ('a' <= c <= 'f')
  }

  function HexValue(c: char): (d: int)
    requires IsHexDigit(c)
    ensures 0 <= d < 16
  {
    if '0' <= c <= '9' then c as int - '0' as int
    else if 'A' <= c <= 'F' then c as int - 'A' as int + 10
    else c as int - 'a' as int + 10
  }

  /** The characters the serializer can produce. */
  predicate OutputChar(c: char) {
    c == '+' || c == '%' || ((c as int) < 0x80 && Unreserved(c as int as byte))
    || ('A' <= c <= 'F')
  }

  function SerializeByte(b: byte): (r: string)
    ensures |r| == 1 || |r| == 3
    ensures forall i :: 0 <= i < |r| ==> OutputChar(r[i])
    ensures |r| == 1 <==> Unreserved(b) || b == 0x20
    ensures Unreserved(b) ==> r == [b as int as char]
  {
    if Unreserved(b) then [b as int as char]
    else if b == 0x20 then "+"
    else ['%', HexDigit(b as int / 16), HexDigit(b as int % 16)]
  }

  /** The byte serializer over a whole byte sequence. */
  function Serialize(bs: seq<byte>): (r: string)
    ensures |bs| <= |r| <= 3 * |bs|
    ensures forall i :: 0 <= i < |r| ==> OutputChar(r[i])
  {
    if bs == [] then [] else SerializeByte(bs[0]) + Serialize(bs[1..])
  }

  /** `new URLSearchParams([[name, value]]).toString()` for one parameter. */
  function EncodeParameter(name: string, value: string): (r: string)
    ensures |r| >= |name| + 1 + |value|
  {
    Serialize(Utf8Encode(name)) + "=" + Serialize(Utf8Encode(value))
  }

  /** The inverse the form parser applies (section 5.1 of the same standard):
      `+` is a space and `%HH` a byte; a `%` without two hex digits stays as is.
      Text outside ASCII never comes out of the serializer and is refused. */
  function Deserialize(s: string): (r: Option<seq<byte>>)
  {
    if s == [] then Some([])
    else if s[0] == '+' then Prepend(0x20, Deserialize(s[1..]))
    else if s[0] == '%' && |s| >= 3 && IsHexDigit(s[1]) && IsHexDigit(s[2]) then
      Prepend((HexValue(s[1]) * 16 + HexValue(s[2])) as byte, Deserialize(s[3..]))
    else if (s[0] as int) < 0x80 then Prepend(s[0] as int as byte, Deserialize(s[1..]))
    else None
  }

  function Prepend(b: byte, rest: Option<seq<byte>>): Option<seq<byte>> {
    if rest.Some? then Some([b] + rest.value) else None
  }

  /** One serialized byte in front of text that parses is parsed back first. */
  lemma DeserializeByte(b: byte, rest: string, restBytes: seq<byte>)
    requires Deserialize(rest) == Some(restBytes)
    ensures Deserialize(SerializeByte(b) + rest) == Some([b] + restBytes)
  {
    var s := SerializeByte(b) + rest;
    if Unreserved(b) {
      assert s == [b as int as char] + rest;
      assert s[1..] == rest;
    } else if b == 0x20 {
      assert s[0] == '+' && s[1..] == rest;
    } else {
      EscapedByte(b, rest);
    }
  }

  /** A byte written as `%HH` reads back as that byte. */
  lemma EscapedByte(b: byte, rest: string)
    requires !Unreserved(b) && b != 0x20
    ensures var s := SerializeByte(b) + rest;
      && s[0] == '%' && |s| >= 3 && IsHexDigit(s[1]) && IsHexDigit(s[2])
      && (HexValue(s[1]) * 16 + HexValue(s[2])) as byte == b && s[3..] == rest
  {
    var hi, lo := HexDigit(b as int / 16), HexDigit(b as int % 16);
    var s := SerializeByte(b) + rest;
    assert s == ['%', hi, lo] + rest;
  }

  /** Serializing loses nothing: parsing the text gives back every byte. */
  lemma {:induction false} DeserializeSerialize(bs: seq<byte>)
    ensures Deserialize(Serialize(bs)) == Some(bs)
  {
    if bs != [] {
      DeserializeSerialize(bs[1..]);
      DeserializeByte(bs[0], Serialize(bs[1..]), bs[1..]);
      assert bs == [bs[0]] + bs[1..];
    }
  }

  /** Lower-case ASCII letters and underscores, the alphabet of parameter names. */
  predicate LowerWord(s: string) {
    forall i :: 0 <= i < |s| ==> 'a' <= s[i] <= 'z' || s[i] == '_'
  }

  /** A lower-case word is serialized unchanged. */
  lemma LowerWordUnchanged(s: string)
    requires LowerWord(s)
    ensures Serialize(Utf8Encode(s)) == s
  {
    forall i | 0 <= i < |s| ensures (s[i] as int) < 0x80 && Unreserved(s[i] as int as byte) {
      assert 'a' <= s[i] <= 'z' || s[i] == '_';
    }
    SerializeUnreserved(s);
  }

  /** Text made only of unreserved ASCII characters passes through unchanged. */
  lemma {:induction false} SerializeUnreserved(s: string)
    requires forall i :: 0 <= i < |s| ==> (s[i] as int) < 0x80 && Unreserved(s[i] as int as byte)
    ensures Serialize(Utf8Encode(s)) == s
  {
    if s != [] {
      SerializeUnreserved(s[1..]);
      var bs := Utf8Encode(s);
      assert bs[1..] == Utf8Encode(s[1..]);
      assert s == [s[0]] + s[1..];
    }
  }
}
