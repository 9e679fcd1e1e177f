/**
 * The digest-to-text step of the duplicate scanner (mina.cs, CalculateFileHash,
 * lines 204-211): every byte of the digest is appended as two lower-case hex digits.
 */
module HexEncoding {
  import opened Wrappers

  newtype byte = x: int | 0 <= x < 256

  /** The characters of lower-case hex: 0-9 and a-f. */
  predicate IsHexDigit(c: char)
  {
    '0' <= c <= '9' || 'a' <= c <= 'f'
  }

  /** The digit for a nibble, as in "0123456789abcdef". */
  function HexDigit(n: int): (c: char)
    requires 0 <= n < 16
    ensures IsHexDigit(c)
  {
    if n < 10 then ('0' as int + n) as char else ('a' as int + n - 10) as char
  }

  /** One byte in the "x2" format: high nibble, then low nibble. */
  function ByteHex(b: byte): string
  {
    [HexDigit(b as int / 16), HexDigit(b as int % 16)]
  }

  /** The hex text of a byte sequence, byte by byte in order. */
  function Hex(bytes: seq<byte>): string
  {
    if bytes == [] then "" else ByteHex(bytes[0]) + Hex(bytes[1..])
  }

  /** Appending a byte appends its two digits. */
  lemma {:induction false} HexAppend(bytes: seq<byte>, b: byte)
    ensures Hex(bytes + [b]) == Hex(bytes) + ByteHex(b)
  {
    if bytes != [] {
      assert (bytes + [b])[1..] == bytes[1..] + [b];
      HexAppend(bytes[1..], b);
    } else {
      assert bytes + [b] == [b];
    }
  }

  /** The StringBuilder loop: appends the two digits of each byte in turn. */
  method HexEncode(bytes: seq<byte>) returns (text: string)
    ensures text == Hex(bytes)
  {
    text := "";
    for i := 0 to |bytes|
      invariant text == Hex(bytes[..i])
    {
      HexAppend(bytes[..i], bytes[i]);
      assert bytes[..i + 1] == bytes[..i] + [bytes[i]];
      text := text + ByteHex(bytes[i]);
    }
    assert bytes[..|bytes|] == bytes;
  }

  /**
   * The text is twice as long as the input, uses only 0-9 and a-f, and positions 2j and
   * 2j+1 hold the high and low nibble of byte j.
   */
  lemma {:induction false} HexShape(bytes: seq<byte>)
    ensures |Hex(bytes)| == 2 * |bytes|
    ensures forall k :: 0 <= k < |Hex(bytes)| ==> IsHexDigit(Hex(bytes)[k])
    ensures forall j :: 0 <= j < |bytes| ==>
      Hex(bytes)[2 * j] == HexDigit(bytes[j] as int / 16) && Hex(bytes)[2 * j + 1] == HexDigit(bytes[j] as int % 16)
  {
    if bytes != [] {
      HexShape(bytes[1..]);
      var rest := Hex(bytes[1..]);
      assert Hex(bytes) == ByteHex(bytes[0]) + rest;
      forall j | 1 <= j < |bytes|
        ensures Hex(bytes)[2 * j] == HexDigit(bytes[j] as int / 16)
        ensures Hex(bytes)[2 * j + 1] == HexDigit(bytes[j] as int % 16)
      {
        assert bytes[j] == bytes[1..][j - 1];
        assert Hex(bytes)[2 * j] == rest[2 * (j - 1)];
        assert Hex(bytes)[2 * j + 1] == rest[2 * (j - 1) + 1];
      }
    }
  }

  /** The value of a lower-case hex digit. */
  function DigitValue(c: char): (v: Option<int>)
    ensures v.Some? ==> 0 <= v.value < 16 && HexDigit(v.value) == c
    ensures v.None? ==> !IsHexDigit(c)
  {
    if '0' <= c <= '9' then Some(c as int - '0' as int)
    else if 'a' <= c <= 'f' then Some(c as int - 'a' as int + 10)
    else None
  }

  lemma DigitValueOfHexDigit(n: int)
    requires 0 <= n < 16
    ensures DigitValue(HexDigit(n)) == Some(n)
  {
  }

  /** Reads hex text back into bytes; odd length or a foreign character gives None. */
  function Unhex(text: string): Option<seq<byte>>
  {
    if text == [] then Some([])
    else if |text| == 1 then None
    else
      match (DigitValue(text[0]), DigitValue(text[1]), Unhex(text[2..]))
      case (Some(high), Some(low), Some(rest)) => Some([(high * 16 + low) as byte] + rest)
      case _ => None
  }

  /** Decoding undoes the encoding. */
  lemma {:induction false} HexRoundTrip(bytes: seq<byte>)
    ensures Unhex(Hex(bytes)) == Some(bytes)
  {
    if bytes != [] {
      var b := bytes[0];
      var high, low := b as int / 16, b as int % 16;
      var text := Hex(bytes);
      assert text == ByteHex(b) + Hex(bytes[1..]);
      assert text[0] == HexDigit(high) && text[1] == HexDigit(low);
      assert text[2..] == Hex(bytes[1..]);
      HexRoundTrip(bytes[1..]);
      DigitValueOfHexDigit(high);
      DigitValueOfHexDigit(low);
      assert (high * 16 + low) as byte == b;
      assert [b] + bytes[1..] == bytes;
    }
  }

  /** Different digests never share a hex text. */
  lemma HexInjective(a: seq<byte>, b: seq<byte>)
    requires Hex(a) == Hex(b)
    ensures a == b
  {
    HexRoundTrip(a);
    HexRoundTrip(b);
  }
}
