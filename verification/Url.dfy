/** Percent-encoding (src/url.hpp) and its inverse (sections 2.1 and 2.3 of RFC 3986). */
module Url {
  import opened Core

  /** The unreserved characters of section 2.3 of RFC 3986. */
  predicate Unreserved(c: char) {
    'a' <= c <= 'z' || 'A' <= c <= 'Z' || '0' <= c <= '9'
    || c == '-' || c == '_' || c == '.' || c == '~'
  }

  function HexDigit(n: int): (c: Byte)
    requires 0 <= n <= 15
    ensures HexValue(c) == Some(n) && Unreserved(c)
  {
    if n < 10 then ('0' as int + n) as char else ('A' as int + n - 10) as char
  }

  function HexValue(c: char): Option<int> {
    if '0' <= c <= '9' then Some(c as int - '0' as int)
    else if 'A' <= c <= 'F' then Some(c as int - 'A' as int + 10)
    else if 'a' <= c <= 'f' then Some(c as int - 'a' as int + 10)
    else None
  }

  function EncodedByte(c: Byte): Bytes {
    if Unreserved(c) then [c] else ['%', HexDigit(c as int / 16), HexDigit(c as int % 16)]
  }

  function Encoded(value: Bytes): Bytes {
    if value == [] then [] else EncodedByte(value[0]) + Encoded(value[1..])
  }

  /** The decoder of section 2.1: a percent sign takes two hexadecimal digits of either case. */
  function Decoded(text: Bytes): Option<Bytes> {
    if text == [] then Some([])
    else if text[0] == '%' then
      if |text| < 3 then None
      else
        match (HexValue(text[1]), HexValue(text[2]), Decoded(text[3..]))
        case (Some(hi), Some(lo), Some(rest)) => Some([(hi * 16 + lo) as char] + rest)
        case _ => None
    else
      match Decoded(text[1..])
      case Some(rest) => Some([text[0]] + rest)
      case None => None
  }

  lemma EncodedFrom(value: Bytes, i: nat)
    requires i < |value|
    ensures Encoded(value[i..]) == EncodedByte(value[i]) + Encoded(value[i + 1..])
  {
    assert value[i..][0] == value[i] && value[i..][1..] == value[i + 1..];
  }

  method Encode(value: Bytes) returns (out: Bytes)
    ensures out == Encoded(value)
  {
    hide EncodedByte, HexDigit, Unreserved;
    out := [];
    for i := 0 to |value|
      invariant out + Encoded(value[i..]) == Encoded(value)
    {
      EncodedFrom(value, i);
      out := AppendByte(out, value[i]);
    }
  }

  method AppendByte(text: Bytes, c: Byte) returns (out: Bytes)
    ensures out == text + EncodedByte(c)
  {
    out := text;
    if Unreserved(c) {
      out := out + [c];
    } else {
      out := out + ['%'];
      out := out + [HexDigit(c as int / 16)];
      out := out + [HexDigit(c as int % 16)];
    }
  }

  lemma DecodedByte(c: Byte, tail: Bytes)
    requires Decoded(tail).Some?
    ensures Decoded(EncodedByte(c) + tail) == Some([c] + Decoded(tail).value)
  {
    var head := EncodedByte(c);
    assert (head + tail)[|head|..] == tail;
    assert c as int == 16 * (c as int / 16) + c as int % 16;
  }

  /** Decoding undoes encoding, for every byte string. */
  lemma {:induction false} DecodedOfEncoded(value: Bytes)
    ensures Decoded(Encoded(value)) == Some(value)
  {
    if value == [] {
    } else {
      DecodedOfEncoded(value[1..]);
      DecodedByte(value[0], Encoded(value[1..]));
      hide EncodedByte, Decoded;
      assert value == [value[0]] + value[1..];
    }
  }

  /** An encoded value consists of unreserved characters and percent signs: no query delimiter. */
  lemma {:induction false} EncodedAlphabet(value: Bytes)
    ensures forall i :: 0 <= i < |Encoded(value)| ==> Unreserved(Encoded(value)[i]) || Encoded(value)[i] == '%'
  {
    if value == [] {
    } else {
      EncodedAlphabet(value[1..]);
    }
  }

  /** Which characters are sent as they are, by the codes that section 2.3 of RFC 3986 gives. */
  lemma UnreservedAre(c: char)
    ensures Unreserved(c) <==>
            || 0x41 <= c as int <= 0x5A || 0x61 <= c as int <= 0x7A || 0x30 <= c as int <= 0x39
            || c as int == 0x2D || c as int == 0x2E || c as int == 0x5F || c as int == 0x7E
  {
  }

  /** Any other byte is sent as a percent sign and two upper-case hexadecimal digits. */
  lemma ReservedIsHex(c: Byte)
    requires !Unreserved(c)
    ensures var hex := "0123456789ABCDEF";
            EncodedByte(c) == ['%', hex[c as int / 16], hex[c as int % 16]]
  {
  }

  /** A value of unreserved characters is sent unchanged. */
  lemma {:induction false} EncodedUnreserved(value: Bytes)
    requires forall i :: 0 <= i < |value| ==> Unreserved(value[i])
    ensures Encoded(value) == value
  {
    if value == [] {
    } else {
      EncodedUnreserved(value[1..]);
    }
  }
}
