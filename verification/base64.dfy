/**
 * The base64 helpers of `ConfigManager`: `_encode` and the repeated decoding of
 * `_decode`, over the alphabet of section 4 of RFC 4648 ("A"-"Z", "a"-"z",
 * "0"-"9", "+", "/", padding "="). Text is modelled by its bytes (ASCII codes).
 */
module Base64 {
  import opened Results

  type Byte = bv8

  /** The padding character "=". */
  const Pad: Byte := 61

  /** The character (as its ASCII code) that stands for the 6-bit value `i`. */
  function Symbol(i: Byte): (c: Byte)
    requires i < 64
    ensures c != Pad
  {
    if i < 26 then i + 65        // 'A'..'Z'
    else if i < 52 then i + 71   // 'a'..'z'
    else if i < 62 then i - 4    // '0'..'9'
    else if i == 62 then 43      // '+'
    else 47                      // '/'
  }

  /** The 6-bit value a character stands for, or None for a character outside the alphabet. */
  function SextetOf(c: Byte): (r: Option<Byte>)
    ensures r.Some? ==> r.value < 64 && Symbol(r.value) == c
  {
    if 65 <= c <= 90 then Some(c - 65)
    else if 97 <= c <= 122 then Some(c - 71)
    else if 48 <= c <= 57 then Some(c + 4)
    else if c == 43 then Some(62)
    else if c == 47 then Some(63)
    else None
  }

  /** Every alphabet character is read back as the value it was written for. */
  lemma SextetOfSymbol(i: Byte)
    requires i < 64
    ensures SextetOf(Symbol(i)) == Some(i)
  {
  }

  /** The four 6-bit values that the 24 bits of three bytes `x`, `y`, `z` are cut into. */
  function Sextet0(x: Byte): (r: Byte) ensures r < 64 { x >> 2 }
  function Sextet1(x: Byte, y: Byte): (r: Byte) ensures r < 64 { ((x & 3) << 4) | (y >> 4) }
  function Sextet2(y: Byte, z: Byte): (r: Byte) ensures r < 64 { ((y & 15) << 2) | (z >> 6) }
  function Sextet3(z: Byte): (r: Byte) ensures r < 64 { z & 63 }

  /** The three bytes that four 6-bit values `a`, `b`, `c`, `d` are put back together into. */
  function Octet0(a: Byte, b: Byte): Byte { (a << 2) | (b >> 4) }
  function Octet1(b: Byte, c: Byte): Byte { ((b & 15) << 4) | (c >> 2) }
  function Octet2(c: Byte, d: Byte): Byte { ((c & 3) << 6) | d }

  /** Cutting three bytes into sextets and putting the sextets back together gives the bytes. */
  lemma OctetsOfSextets(x: Byte, y: Byte, z: Byte)
    ensures Octet0(Sextet0(x), Sextet1(x, y)) == x
    ensures Octet1(Sextet1(x, y), Sextet2(y, z)) == y
    ensures Octet2(Sextet2(y, z), Sextet3(z)) == z
  {
  }

  /**
   * `base64.b64encode`: every 3 bytes become 4 characters; a final 1 or 2 bytes
   * are completed with zero bits and padded with "=".
   */
  function Encode(s: seq<Byte>): (r: seq<Byte>)
    ensures |r| == 4 * ((|s| + 2) / 3)
    decreases |s|
  {
    if |s| == 0 then []
    else if |s| == 1 then
      [Symbol(Sextet0(s[0])), Symbol(Sextet1(s[0], 0)), Pad, Pad]
    else if |s| == 2 then
      [Symbol(Sextet0(s[0])), Symbol(Sextet1(s[0], s[1])), Symbol(Sextet2(s[1], 0)), Pad]
    else
      [Symbol(Sextet0(s[0])), Symbol(Sextet1(s[0], s[1])), Symbol(Sextet2(s[1], s[2])), Symbol(Sextet3(s[2]))]
      + Encode(s[3..])
  }

  /**
   * Test vectors of section 10 of RFC 4648, as ASCII codes: "" is "", "f" is
   * "Zg==", "fo" is "Zm8=", "foo" is "Zm9v", "foob" is "Zm9vYg==" and "foobar"
   * is "Zm9vYmFy".
   */
  lemma EncodeTestVectors()
    ensures Encode([]) == []
    ensures Encode([102]) == [90, 103, 61, 61]
    ensures Encode([102, 111]) == [90, 109, 56, 61]
    ensures Encode([102, 111, 111]) == [90, 109, 57, 118]
    ensures Encode([102, 111, 111, 98]) == [90, 109, 57, 118, 89, 103, 61, 61]
    ensures Encode([102, 111, 111, 98, 97, 114]) == [90, 109, 57, 118, 89, 109, 70, 121]
  {
    var foob: seq<Byte> := [102, 111, 111, 98];
    var foobar: seq<Byte> := [102, 111, 111, 98, 97, 114];
    assert foob[3..] == [98];
    assert foobar[3..] == [98, 97, 114];
  }

  /**
   * One `base64.b64decode` pass over canonical padded input: groups of 4
   * characters become 3 bytes, a final group ending in "==" or "=" gives 1 or 2
   * bytes; anything else is malformed (None, Python's binascii.Error).
   */
  function DecodeOnce(t: seq<Byte>): (r: Option<seq<Byte>>)
    decreases |t|
  {
    if |t| == 0 then Some([])
    else if |t| < 4 then None
    else
      var a, b, c, d := SextetOf(t[0]), SextetOf(t[1]), SextetOf(t[2]), SextetOf(t[3]);
      if |t| == 4 && t[2] == Pad && t[3] == Pad then
        if a.None? || b.None? then None
        else Some([Octet0(a.value, b.value)])
      else if |t| == 4 && t[3] == Pad then
        if a.None? || b.None? || c.None? then None
        else Some([Octet0(a.value, b.value), Octet1(b.value, c.value)])
      else if a.None? || b.None? || c.None? || d.None? then None
      else
        match DecodeOnce(t[4..])
        case None => None
        case Some(rest) =>
          Some([Octet0(a.value, b.value), Octet1(b.value, c.value), Octet2(c.value, d.value)] + rest)
  }

  /** Decoding undoes encoding: `_decode(_encode(s), iteration=1) == s`. */
  lemma {:induction false} DecodeEncode(s: seq<Byte>)
    ensures DecodeOnce(Encode(s)) == Some(s)
    decreases |s|
  {
    if |s| == 1 {
      assert s == [s[0]];
      DecodeEncodeOne(s[0]);
    } else if |s| == 2 {
      assert s == [s[0], s[1]];
      DecodeEncodeTwo(s[0], s[1]);
    } else if |s| >= 3 {
      var x, y, z, tail := s[0], s[1], s[2], Encode(s[3..]);
      DecodeEncode(s[3..]);
      DecodeEncodeGroup(x, y, z, tail);
      assert s == [x, y, z] + s[3..];
    }
  }

  /** A single byte is written as two symbols and "==", and read back. */
  lemma DecodeEncodeOne(x: Byte)
    ensures DecodeOnce(Encode([x])) == Some([x])
  {
    SextetOfSymbol(Sextet0(x));
    SextetOfSymbol(Sextet1(x, 0));
    OctetsOfSextets(x, 0, 0);
  }

  /** Two bytes are written as three symbols and "=", and read back. */
  lemma DecodeEncodeTwo(x: Byte, y: Byte)
    ensures DecodeOnce(Encode([x, y])) == Some([x, y])
  {
    SextetOfSymbol(Sextet0(x));
    SextetOfSymbol(Sextet1(x, y));
    SextetOfSymbol(Sextet2(y, 0));
    OctetsOfSextets(x, y, 0);
  }

  /** A leading group of three bytes is read back in front of whatever the rest decodes to. */
  lemma DecodeEncodeGroup(x: Byte, y: Byte, z: Byte, tail: seq<Byte>)
    ensures DecodeOnce([Symbol(Sextet0(x)), Symbol(Sextet1(x, y)), Symbol(Sextet2(y, z)), Symbol(Sextet3(z))] + tail)
      == match DecodeOnce(tail) case None => None case Some(rest) => Some([x, y, z] + rest)
  {
    SextetOfSymbol(Sextet0(x));
    SextetOfSymbol(Sextet1(x, y));
    SextetOfSymbol(Sextet2(y, z));
    SextetOfSymbol(Sextet3(z));
    OctetsOfSextets(x, y, z);
    var t := [Symbol(Sextet0(x)), Symbol(Sextet1(x, y)), Symbol(Sextet2(y, z)), Symbol(Sextet3(z))] + tail;
    assert t[4..] == tail;
  }

  /** `value` encoded `n` times over. */
  function EncodeTimes(s: seq<Byte>, n: nat): seq<Byte> {
    if n == 0 then s else Encode(EncodeTimes(s, n - 1))
  }

  /** The value after `n` decoding passes (none when `n` is not positive), None if a pass fails. */
  function DecodeTimes(t: seq<Byte>, n: int): Option<seq<Byte>>
    decreases n
  {
    if n <= 0 then Some(t)
    else
      match DecodeOnce(t)
      case None => None
      case Some(u) => DecodeTimes(u, n - 1)
  }

  /** `n` decoding passes undo `n` encodings. */
  lemma {:induction false} DecodeEncodeTimes(s: seq<Byte>, n: nat)
    ensures DecodeTimes(EncodeTimes(s, n), n) == Some(s)
  {
    if n > 0 {
      DecodeEncode(EncodeTimes(s, n - 1));
      DecodeEncodeTimes(s, n - 1);
    }
  }

  /** The loop of `_decode`: `iteration` successive decoding passes, failing at the first malformed pass. */
  method DecodeRepeated(value: seq<Byte>, iteration: int) returns (r: Option<seq<Byte>>)
    ensures r == DecodeTimes(value, iteration)
  {
    var current := value;
    var i := 0;
    while i < iteration
      invariant 0 <= i && (0 <= iteration ==> i <= iteration)
      invariant DecodeTimes(value, iteration) == DecodeTimes(current, iteration - i)
    {
      var next := DecodeOnce(current);
      if next.None? {
        return None;
      }
      current := next.value;
      i := i + 1;
    }
    return Some(current);
  }
}
