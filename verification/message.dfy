/** The raw message wrapper (`implMessage`): a message is nothing but its
    frame bytes. A Go string is converted to bytes as its UTF-8 encoding,
    which is written out here together with its decoder. */
module Messages {
  import opened Wrappers
  import opened Ints

  datatype Message = Message(frames: seq<uint8>) {
    function Bytes(): seq<uint8> {
      frames
    }

    function Size(): nat {
      |frames|
    }
  }

  /** `NewMessageBytes`: the bytes become the frames as they are. */
  function NewMessageBytes(b: seq<uint8>): (m: Message)
    ensures m.Bytes() == b && m.Size() == |b|
  {
    Message(b)
  }

  /** `NewMessageString`: the message of the text's UTF-8 bytes. */
  function NewMessageString(txt: string): (m: Message)
    ensures m == NewMessageBytes(Utf8(txt))
    ensures |txt| <= m.Size() <= 4 * |txt|
  {
    NewMessageBytes(Utf8(txt))
  }

  // ---------------------------------------------------------------------
  // UTF-8
  // ---------------------------------------------------------------------

  /** The UTF-8 encoding of one scalar value: 1 to 4 bytes by magnitude. */
  function Utf8Char(c: char): (r: seq<uint8>)
    ensures 1 <= |r| <= 4
    ensures |r| == 1 <==> c as int < 0x80
    ensures |r| == 1 ==> r[0] == c as int
  {
    var n := c as int;
    if n < 0x80 then [n]
    else if n < 0x800 then [0xC0 + n / 0x40, 0x80 + n % 0x40]
    else if n < 0x1_0000 then [0xE0 + n / 0x1000, 0x80 + (n / 0x40) % 0x40, 0x80 + n % 0x40]
    else [0xF0 + n / 0x4_0000, 0x80 + (n / 0x1000) % 0x40, 0x80 + (n / 0x40) % 0x40, 0x80 + n % 0x40]
  }

  /** The UTF-8 encoding of a string, character by character. */
  function Utf8(s: string): (r: seq<uint8>)
    ensures |s| <= |r| <= 4 * |s|
    decreases |s|
  {
    if |s| == 0 then [] else Utf8Char(s[0]) + Utf8(s[1..])
  }

  /** Encoding a concatenation concatenates the encodings. */
  lemma {:induction false} Utf8Append(a: string, b: string)
    ensures Utf8(a + b) == Utf8(a) + Utf8(b)
    decreases |a|
  {
    if |a| > 0 {
      assert (a + b)[1..] == a[1..] + b;
      Utf8Append(a[1..], b);
    } else {
      assert a + b == b;
    }
  }

  /** ASCII text is sent byte for byte. */
  lemma {:induction false} Utf8Ascii(s: string)
    requires forall i :: 0 <= i < |s| ==> s[i] as int < 0x80
    ensures |Utf8(s)| == |s|
    ensures forall i :: 0 <= i < |s| ==> Utf8(s)[i] == s[i] as int
    decreases |s|
  {
    if |s| > 0 {
      Utf8Ascii(s[1..]);
      assert Utf8(s) == [s[0] as int as uint8] + Utf8(s[1..]);
    }
  }

  /** A continuation byte: 10xxxxxx. */
  predicate IsCont(b: uint8) {
    0x80 <= b < 0xC0
  }

  /** The scalar value of a 1- to 4-byte sequence, or `None` when the value
      is not a Unicode scalar value. */
  function ToChar(n: int): (r: Option<char>)
    ensures r.Some? ==> r.value as int == n
  {
    if 0 <= n < 0xD800 || 0xE000 <= n < 0x11_0000 then Some(n as char) else None
  }

  /** Decodes the first character of `bs`: the character and the number of
      bytes it takes, or `None`. */
  function DecodeChar(bs: seq<uint8>): (r: Option<(char, nat)>)
    ensures r.Some? ==> 1 <= r.value.1 <= |bs|
  {
    if |bs| == 0 then None
    else if bs[0] < 0x80 then Some((bs[0] as char, 1))
    else if 0xC0 <= bs[0] < 0xE0 && |bs| >= 2 && IsCont(bs[1]) then
      match ToChar((bs[0] as int - 0xC0) * 0x40 + (bs[1] as int - 0x80))
      case Some(c) => Some((c, 2))
      case None => None
    else if 0xE0 <= bs[0] < 0xF0 && |bs| >= 3 && IsCont(bs[1]) && IsCont(bs[2]) then
      match ToChar((bs[0] as int - 0xE0) * 0x1000 + (bs[1] as int - 0x80) * 0x40 + (bs[2] as int - 0x80))
      case Some(c) => Some((c, 3))
      case None => None
    else if 0xF0 <= bs[0] < 0xF8 && |bs| >= 4 && IsCont(bs[1]) && IsCont(bs[2]) && IsCont(bs[3]) then
      match ToChar((bs[0] as int - 0xF0) * 0x4_0000 + (bs[1] as int - 0x80) * 0x1000 + (bs[2] as int - 0x80) * 0x40 + (bs[3] as int - 0x80))
      case Some(c) => Some((c, 4))
      case None => None
    else None
  }

  /** Decodes a whole byte sequence, or `None` when it is not UTF-8 as
      `Utf8` writes it. */
  function Utf8Decode(bs: seq<uint8>): (r: Option<string>)
    decreases |bs|
  {
    if |bs| == 0 then Some([])
    else match DecodeChar(bs)
      case None => None
      case Some((c, k)) =>
        match Utf8Decode(bs[k..])
        case None => None
        case Some(rest) => Some([c] + rest)
  }

  lemma Split64(n: nat)
    ensures n == (n / 0x40) * 0x40 + n % 0x40
    ensures n / 0x1000 == (n / 0x40) / 0x40
    ensures n / 0x4_0000 == (n / 0x1000) / 0x40
  {
  }

  /** The first character of an encoding decodes back. */
  lemma DecodeCharUtf8(c: char, rest: seq<uint8>)
    ensures DecodeChar(Utf8Char(c) + rest) == Some((c, |Utf8Char(c)|))
  {
    var n := c as int;
    var bs := Utf8Char(c) + rest;
    Split64(n);
    Split64(n / 0x40);
    Split64(n / 0x1000);
    if n < 0x80 {
    } else if n < 0x800 {
      assert (bs[0] as int - 0xC0) * 0x40 + (bs[1] as int - 0x80) == n;
    } else if n < 0x1_0000 {
      assert (bs[0] as int - 0xE0) * 0x1000 + (bs[1] as int - 0x80) * 0x40 + (bs[2] as int - 0x80) == n;
    } else {
      assert (bs[0] as int - 0xF0) * 0x4_0000 + (bs[1] as int - 0x80) * 0x1000 + (bs[2] as int - 0x80) * 0x40 + (bs[3] as int - 0x80) == n;
    }
  }

  /** Decoding undoes encoding. */
  lemma {:induction false} DecodeUtf8(s: string)
    ensures Utf8Decode(Utf8(s)) == Some(s)
    decreases |s|
  {
    if |s| > 0 {
      var e := Utf8Char(s[0]);
      DecodeCharUtf8(s[0], Utf8(s[1..]));
      assert (e + Utf8(s[1..]))[|e|..] == Utf8(s[1..]);
      DecodeUtf8(s[1..]);
      assert [s[0]] + s[1..] == s;
    }
  }

  /** Different texts make different messages. */
  lemma NewMessageStringInjective(a: string, b: string)
    requires NewMessageString(a) == NewMessageString(b)
    ensures a == b
  {
    DecodeUtf8(a);
    DecodeUtf8(b);
  }
}
