/** The sequential byte reader and writer used by the device codecs
    (`ByteReader`, `ByteWriter`). A reader is the chosen byte order plus the
    bytes not yet consumed; a writer is the byte order plus everything in its
    buffer. Both are values: "mutating" operations return the new state. */
module ByteRW {
  import opened Ints

  /** `binary.LittleEndian` and `binary.BigEndian`. */
  datatype ByteOrder = LittleEndian | BigEndian

  // ---------------------------------------------------------------------
  // Fixed-width integer encoding (`binary.ByteOrder`)
  // ---------------------------------------------------------------------

  lemma Pow256Values()
    ensures Pow256(1) == 0x100
    ensures Pow256(2) == 0x1_0000
    ensures Pow256(4) == 0x1_0000_0000
    ensures Pow256(8) == 0x1_0000_0000_0000_0000
  {
    assert Pow256(2) == 0x1_0000;
    assert Pow256(3) == 0x100_0000;
    assert Pow256(4) == 0x1_0000_0000;
    assert Pow256(5) == 0x100_0000_0000;
    assert Pow256(6) == 0x1_0000_0000_0000;
    assert Pow256(7) == 0x100_0000_0000_0000;
  }

  /** The `n` low-order bytes of `v`, least significant first. */
  function LeBytes(v: nat, n: nat): (r: seq<uint8>)
    ensures |r| == n
    decreases n
  {
    if n == 0 then [] else [v % 0x100] + LeBytes(v / 0x100, n - 1)
  }

  /** The number whose least significant byte comes first in `bs`. */
  function LeValue(bs: seq<uint8>): (v: nat)
    ensures v < Pow256(|bs|)
    decreases |bs|
  {
    if |bs| == 0 then 0 else bs[0] + 0x100 * LeValue(bs[1..])
  }

  function Reverse(bs: seq<uint8>): (r: seq<uint8>)
    ensures |r| == |bs|
    ensures forall i :: 0 <= i < |bs| ==> r[i] == bs[|bs| - 1 - i]
  {
    seq(|bs|, i requires 0 <= i < |bs| => bs[|bs| - 1 - i])
  }

  lemma ReverseReverse(bs: seq<uint8>)
    ensures Reverse(Reverse(bs)) == bs
  {
  }

  /** `order.PutUintN`: the `n` bytes of `v` in the given byte order. */
  function Encode(order: ByteOrder, v: nat, n: nat): (r: seq<uint8>)
    ensures |r| == n
  {
    match order
    case LittleEndian => LeBytes(v, n)
    case BigEndian => Reverse(LeBytes(v, n))
  }

  /** `order.UintN`: the number the bytes denote in the given byte order. */
  function Decode(order: ByteOrder, bs: seq<uint8>): (v: nat)
    ensures v < Pow256(|bs|)
  {
    match order
    case LittleEndian => LeValue(bs)
    case BigEndian => LeValue(Reverse(bs))
  }

  /** Dividing by 256 and then by `p` is dividing by `256 * p`. */
  lemma DivDiv256(v: nat, p: nat)
    requires p > 0
    ensures (v / 0x100) / p == v / (0x100 * p)
  {
    var q := v / 0x100;
    var a := q / p;
    var b := q % p;
    assert q == p * a + b;
    assert v == 0x100 * q + v % 0x100;
    assert v == (0x100 * p) * a + (0x100 * b + v % 0x100);
    DivUnique(v, 0x100 * p, a, 0x100 * b + v % 0x100);
  }

  /** Little-endian decoding undoes little-endian encoding for every value that fits. */
  lemma {:induction false} LeRoundTrip(v: nat, n: nat)
    requires v < Pow256(n)
    ensures LeValue(LeBytes(v, n)) == v
    decreases n
  {
    if n > 0 {
      var r := LeBytes(v, n);
      assert r[1..] == LeBytes(v / 0x100, n - 1);
      LeRoundTrip(v / 0x100, n - 1);
    }
  }

  /** Little-endian encoding undoes little-endian decoding: no byte pattern is lost. */
  lemma {:induction false} LeBytesOfValue(bs: seq<uint8>)
    ensures LeBytes(LeValue(bs), |bs|) == bs
    decreases |bs|
  {
    if |bs| > 0 {
      var v := LeValue(bs);
      DivUnique(v, 0x100, LeValue(bs[1..]), bs[0]);
      LeBytesOfValue(bs[1..]);
      assert [bs[0]] + bs[1..] == bs;
    }
  }

  /** Byte `k` of a little-endian encoding is `(v >> 8k) & 0xFF`. */
  lemma {:induction false} LeByteAt(v: nat, n: nat, k: nat)
    requires k < n
    ensures LeBytes(v, n)[k] == (v / Pow256(k)) % 0x100
    decreases k
  {
    if k > 0 {
      LeByteAt(v / 0x100, n - 1, k - 1);
      DivDiv256(v, Pow256(k - 1));
    }
  }

  /** Decoding undoes encoding in either byte order. */
  lemma DecodeEncode(order: ByteOrder, v: nat, n: nat)
    requires v < Pow256(n)
    ensures Decode(order, Encode(order, v, n)) == v
  {
    LeRoundTrip(v, n);
    ReverseReverse(LeBytes(v, n));
  }

  /** Encoding undoes decoding in either byte order. */
  lemma EncodeDecode(order: ByteOrder, bs: seq<uint8>)
    ensures Encode(order, Decode(order, bs), |bs|) == bs
  {
    match order
    case LittleEndian => LeBytesOfValue(bs);
    case BigEndian =>
      LeBytesOfValue(Reverse(bs));
      ReverseReverse(bs);
  }

  // ---------------------------------------------------------------------
  // ByteReader
  // ---------------------------------------------------------------------

  datatype ByteReader = ByteReader(order: ByteOrder, unread: seq<uint8>) {

    /** `GetByte`: the next byte, or 0 with nothing consumed once the frame is exhausted. */
    function GetByte(): (r: (ByteReader, uint8))
      ensures |unread| > 0 ==> r == (ByteReader(order, unread[1..]), unread[0])
      ensures |unread| == 0 ==> r == (this, 0)
    {
      if |unread| == 0 then (this, 0) else (ByteReader(order, unread[1..]), unread[0])
    }

    /** `GetBytesSize`: exactly `size` bytes; whatever the frame lacks is zero
        and the short read is not reported. */
    function GetBytesSize(size: nat): (r: (ByteReader, seq<uint8>))
      ensures |r.1| == size
      ensures forall i :: 0 <= i < size && i < |unread| ==> r.1[i] == unread[i]
      ensures forall i :: |unread| <= i < size ==> r.1[i] == 0
      ensures size <= |unread| ==> r.0 == ByteReader(order, unread[size..])
      ensures size > |unread| ==> r.0 == ByteReader(order, [])
    {
      if size <= |unread| then (ByteReader(order, unread[size..]), unread[..size])
      else (ByteReader(order, []), unread + Zeros(size - |unread|))
    }

    function GetUint16(): (r: (ByteReader, uint16))
      ensures r.1 == Decode(order, GetBytesSize(2).1) && r.0 == GetBytesSize(2).0
    {
      Pow256Values();
      var (next, bs) := GetBytesSize(2);
      (next, Decode(order, bs))
    }

    function GetUint32(): (r: (ByteReader, uint32))
      ensures r.1 == Decode(order, GetBytesSize(4).1) && r.0 == GetBytesSize(4).0
    {
      Pow256Values();
      var (next, bs) := GetBytesSize(4);
      (next, Decode(order, bs))
    }

    function GetUint64(): (r: (ByteReader, uint64))
      ensures r.1 == Decode(order, GetBytesSize(8).1) && r.0 == GetBytesSize(8).0
    {
      Pow256Values();
      var (next, bs) := GetBytesSize(8);
      (next, Decode(order, bs))
    }

    /** `Reset`: discards whatever has not been read. */
    function Reset(): (r: ByteReader)
      ensures r.order == order && |r.unread| == 0
    {
      ByteReader(order, [])
    }
  }

  function WrapByteReader(frame: seq<uint8>, order: ByteOrder): (r: ByteReader)
    ensures r.unread == frame && r.order == order
  {
    ByteReader(order, frame)
  }

  // ---------------------------------------------------------------------
  // ByteWriter
  // ---------------------------------------------------------------------

  datatype ByteWriter = ByteWriter(order: ByteOrder, buffer: seq<uint8>) {

    function PutByte(b: uint8): (w: ByteWriter)
      ensures w.order == order && w.buffer == buffer + [b]
    {
      ByteWriter(order, buffer + [b])
    }

    function PutBytes(bs: seq<uint8>): (w: ByteWriter)
      ensures w.order == order && |w.buffer| == |buffer| + |bs|
      ensures w.buffer[..|buffer|] == buffer && w.buffer[|buffer|..] == bs
    {
      ByteWriter(order, buffer + bs)
    }

    /** `PutUint16`: appends exactly the two bytes of `v` in this writer's order. */
    function PutUint16(v: uint16): (w: ByteWriter)
      ensures w.order == order && |w.buffer| == |buffer| + 2
      ensures w.buffer[..|buffer|] == buffer
      ensures Decode(order, w.buffer[|buffer|..]) == v
    {
      Pow256Values();
      DecodeEncode(order, v, 2);
      PutBytes(Encode(order, v, 2))
    }

    /** `PutUint32`: appends exactly the four bytes of `v` in this writer's order. */
    function PutUint32(v: uint32): (w: ByteWriter)
      ensures w.order == order && |w.buffer| == |buffer| + 4
      ensures w.buffer[..|buffer|] == buffer
      ensures Decode(order, w.buffer[|buffer|..]) == v
    {
      Pow256Values();
      DecodeEncode(order, v, 4);
      PutBytes(Encode(order, v, 4))
    }

    /** `PutUint64`: appends exactly the eight bytes of `v` in this writer's order. */
    function PutUint64(v: uint64): (w: ByteWriter)
      ensures w.order == order && |w.buffer| == |buffer| + 8
      ensures w.buffer[..|buffer|] == buffer
      ensures Decode(order, w.buffer[|buffer|..]) == v
    {
      Pow256Values();
      DecodeEncode(order, v, 8);
      PutBytes(Encode(order, v, 8))
    }

    function Bytes(): seq<uint8> {
      buffer
    }

    /** `Reset`: empties the buffer. */
    function Reset(): (w: ByteWriter)
      ensures w.order == order && |w.Bytes()| == 0
    {
      ByteWriter(order, [])
    }
  }

  /** `NewByteWriter`: a writer over an empty buffer. */
  function NewByteWriter(order: ByteOrder): (w: ByteWriter)
    ensures w.order == order && |w.Bytes()| == 0
  {
    ByteWriter(order, [])
  }

  /** `WrapByteWriter`: a writer whose buffer starts with the caller's bytes;
      what is put afterwards is appended behind them. */
  function WrapByteWriter(buffer: seq<uint8>, order: ByteOrder): (w: ByteWriter)
    ensures w.order == order && w.Bytes() == buffer
  {
    ByteWriter(order, buffer)
  }

  // ---------------------------------------------------------------------
  // Writing a sequence of values and reading it back
  // ---------------------------------------------------------------------

  /** One call of the writer: `PutByte`, `PutBytes` or `PutUintN`. */
  datatype Item = U8(b: uint8) | Raw(bytes: seq<uint8>) | U16(v16: uint16) | U32(v32: uint32) | U64(v64: uint64)

  function Put(w: ByteWriter, item: Item): ByteWriter {
    match item
    case U8(b) => w.PutByte(b)
    case Raw(bs) => w.PutBytes(bs)
    case U16(v) => w.PutUint16(v)
    case U32(v) => w.PutUint32(v)
    case U64(v) => w.PutUint64(v)
  }

  /** The reader call that matches `like`: `GetByte`, `GetBytesSize` of the
      same length, or `GetUintN` of the same width. */
  function Get(r: ByteReader, like: Item): (ByteReader, Item) {
    match like
    case U8(_) => var (n, b) := r.GetByte(); (n, U8(b))
    case Raw(bs) => var (n, got) := r.GetBytesSize(|bs|); (n, Raw(got))
    case U16(_) => var (n, v) := r.GetUint16(); (n, U16(v))
    case U32(_) => var (n, v) := r.GetUint32(); (n, U32(v))
    case U64(_) => var (n, v) := r.GetUint64(); (n, U64(v))
  }

  function PutAll(w: ByteWriter, items: seq<Item>): ByteWriter
    decreases |items|
  {
    if |items| == 0 then w else PutAll(Put(w, items[0]), items[1..])
  }

  function GetAll(r: ByteReader, likes: seq<Item>): (ByteReader, seq<Item>)
    decreases |likes|
  {
    if |likes| == 0 then (r, [])
    else
      var (r1, first) := Get(r, likes[0]);
      var (r2, rest) := GetAll(r1, likes[1..]);
      (r2, [first] + rest)
  }

  /** The bytes one item contributes. */
  function ItemBytes(order: ByteOrder, item: Item): seq<uint8> {
    match item
    case U8(b) => [b]
    case Raw(bs) => bs
    case U16(v) => Encode(order, v, 2)
    case U32(v) => Encode(order, v, 4)
    case U64(v) => Encode(order, v, 8)
  }

  function Encoded(order: ByteOrder, items: seq<Item>): seq<uint8>
    decreases |items|
  {
    if |items| == 0 then [] else ItemBytes(order, items[0]) + Encoded(order, items[1..])
  }

  /** Writing appends exactly the encodings of the items, in order, after
      whatever the buffer held. */
  lemma {:induction false} PutAllAppends(w: ByteWriter, items: seq<Item>)
    ensures PutAll(w, items).order == w.order
    ensures PutAll(w, items).Bytes() == w.Bytes() + Encoded(w.order, items)
    decreases |items|
  {
    if |items| > 0 {
      var w1 := Put(w, items[0]);
      assert w1.order == w.order && w1.buffer == w.buffer + ItemBytes(w.order, items[0]);
      PutAllAppends(w1, items[1..]);
    }
  }

  lemma GetItem(order: ByteOrder, item: Item, rest: seq<uint8>)
    ensures Get(ByteReader(order, ItemBytes(order, item) + rest), item) == (ByteReader(order, rest), item)
  {
    var bs := ItemBytes(order, item);
    var r := ByteReader(order, bs + rest);
    assert r.unread[..|bs|] == bs && r.unread[|bs|..] == rest;
    Pow256Values();
    match item
    case U8(_) =>
    case Raw(_) =>
    case U16(v) => DecodeEncode(order, v, 2);
    case U32(v) => DecodeEncode(order, v, 4);
    case U64(v) => DecodeEncode(order, v, 8);
  }

  /** Reading, with matching calls, what the items encode yields the items
      and leaves exactly the bytes behind them unread. */
  lemma {:induction false} GetAllEncoded(order: ByteOrder, items: seq<Item>, rest: seq<uint8>)
    ensures GetAll(ByteReader(order, Encoded(order, items) + rest), items) == (ByteReader(order, rest), items)
    decreases |items|
  {
    var r := ByteReader(order, Encoded(order, items) + rest);
    if |items| > 0 {
      var tail := Encoded(order, items[1..]) + rest;
      assert Encoded(order, items) + rest == ItemBytes(order, items[0]) + tail;
      GetItem(order, items[0], tail);
      assert Get(r, items[0]) == (ByteReader(order, tail), items[0]);
      GetAllEncoded(order, items[1..], rest);
      assert [items[0]] + items[1..] == items;
    } else {
      assert r == ByteReader(order, rest);
    }
  }

  /** Values written with `PutByte`, `PutBytes` and `PutUintN` into a fresh
      writer are read back, in order and with the same byte order, by the
      matching reader calls, and nothing is left over. */
  lemma WriteThenRead(order: ByteOrder, items: seq<Item>)
    ensures GetAll(WrapByteReader(PutAll(NewByteWriter(order), items).Bytes(), order), items)
         == (ByteReader(order, []), items)
  {
    var w := NewByteWriter(order);
    PutAllAppends(w, items);
    GetAllEncoded(order, items, []);
    assert w.Bytes() + Encoded(order, items) == Encoded(order, items) + [];
  }

  /** A writer wrapped around existing bytes keeps them in front of
      everything written afterwards. */
  lemma WrappedWriterKeepsPrefix(buffer: seq<uint8>, order: ByteOrder, items: seq<Item>)
    ensures PutAll(WrapByteWriter(buffer, order), items).Bytes() == buffer + Encoded(order, items)
  {
    PutAllAppends(WrapByteWriter(buffer, order), items);
  }
}
