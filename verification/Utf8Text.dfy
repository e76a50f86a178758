/** Encoding characters as RFC 3629, section 3, lays them out: the inverse of decoding. */
module Utf8Text {
  import opened Utf8
  import opened LineStream

  /** The low six bits, as a continuation byte. */
  function Continuation(n: nat): byte {
    0x80 + n % 0x40
  }

  function EncodeChar(c: char): Bytes {
    var n := c as int;
    if n < 0x80 then [n]
    else if n < 0x800 then [0xC0 + n / 0x40, Continuation(n)]
    else if n < 0x1_0000 then [0xE0 + n / 0x1000, Continuation(n / 0x40), Continuation(n)]
    else [0xF0 + n / 0x4_0000, Continuation(n / 0x1000), Continuation(n / 0x40), Continuation(n)]
  }

  function EncodeText(text: string): Bytes {
    if text == "" then [] else EncodeChar(text[0]) + EncodeText(text[1..])
  }

  lemma SixBits(n: nat)
    ensures n == 0x40 * (n / 0x40) + n % 0x40
    ensures n / 0x1000 == n / 0x40 / 0x40 && n / 0x4_0000 == n / 0x1000 / 0x40
  {
  }

  /** Every character encodes to one well-formed character, which decodes to it. */
  lemma EncodedDecodes(c: char)
    ensures IsChar(EncodeChar(c)) && DecodeChar(EncodeChar(c)) == c
  {
    if c as int < 0x1_0000 {
      BasicDecodes(c);
    } else {
      SupplementaryDecodes(c);
    }
  }

  lemma BasicDecodes(c: char)
    requires c as int < 0x1_0000
    ensures IsChar(EncodeChar(c)) && DecodeChar(EncodeChar(c)) == c
  {
    SixBits(c as int);
    SixBits(c as int / 0x40);
  }

  lemma SupplementaryDecodes(c: char)
    requires c as int >= 0x1_0000
    ensures IsChar(EncodeChar(c)) && DecodeChar(EncodeChar(c)) == c
  {
    SixBits(c as int);
    SixBits(c as int / 0x40);
    SixBits(c as int / 0x1000);
  }

  lemma Appended(q: nat, low: byte)
    requires IsTail(low)
    ensures var n := 0x40 * q + Low6(low);
            n >= 0 && n / 0x40 == q && Continuation(n) == low
  {
  }

  lemma TwoBytes(b: Bytes)
    requires IsChar(b) && |b| == 2
    ensures EncodeChar(DecodeChar(b)) == b
  {
    Appended(b[0] - 0xC0, b[1]);
  }

  lemma ThreeBytes(b: Bytes)
    requires IsChar(b) && |b| == 3
    ensures EncodeChar(DecodeChar(b)) == b
  {
    var high := b[0] - 0xE0;
    var middle := 0x40 * high + Low6(b[1]);
    Appended(high, b[1]);
    Appended(middle, b[2]);
    var n := DecodeChar(b) as int;
    assert n == 0x40 * middle + Low6(b[2]);
    SixBits(n);
  }

  lemma FourBytes(b: Bytes)
    requires IsChar(b) && |b| == 4
    ensures EncodeChar(DecodeChar(b)) == b
  {
    var high := b[0] - 0xF0;
    var upper := 0x40 * high + Low6(b[1]);
    var lower := 0x40 * upper + Low6(b[2]);
    Appended(high, b[1]);
    Appended(upper, b[2]);
    Appended(lower, b[3]);
    var n := DecodeChar(b) as int;
    assert n == 0x40 * lower + Low6(b[3]);
    SixBits(n);
  }

  /** Every well-formed character is the encoding of what it decodes to. */
  lemma DecodedEncodes(b: Bytes)
    requires IsChar(b)
    ensures EncodeChar(DecodeChar(b)) == b
  {
    match |b|
    case 2 => TwoBytes(b);
    case 3 => ThreeBytes(b);
    case 4 => FourBytes(b);
    case _ =>
  }

  lemma {:induction false} TextDecodes(text: string)
    ensures Valid(EncodeText(text)) && Decode(EncodeText(text)) == text
    decreases |text|
  {
    if text != "" {
      EncodedDecodes(text[0]);
      TextDecodes(text[1..]);
      Cons(EncodeChar(text[0]), EncodeText(text[1..]));
      DecodeCons(EncodeChar(text[0]), EncodeText(text[1..]));
    }
  }

  lemma {:induction false} DecodedTextEncodes(s: Bytes)
    requires Valid(s)
    ensures EncodeText(Decode(s)) == s
    decreases |s|
  {
    if s != [] {
      var c, rest := Utf8.Uncons(s);
      DecodedEncodes(c);
      DecodeCons(c, rest);
      DecodedTextEncodes(rest);
      assert Decode(s)[1..] == Decode(rest);
    }
  }

  /** The well-formed bytes are exactly the encodings of texts, and decoding finds the text. */
  lemma ValidIffEncoding(s: Bytes, text: string)
    ensures s == EncodeText(text) <==> Valid(s) && Decode(s) == text
  {
    TextDecodes(text);
    if Valid(s) {
      DecodedTextEncodes(s);
    }
  }
}
