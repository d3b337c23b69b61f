/** The 64-byte Dongkong access-controller command frame (`dongk.Command`):
    magic(1) funcId(1) reserved(2) serialNum(4) data(32) seqId(4) extra(20),
    multi-byte fields little-endian. */
module DkCommand {
  import opened Ints
  import opened Wrappers
  import opened ByteRW

  const DkMagic: uint8 := 0x19
  const DkFunIdBoardState: uint8 := 0x20
  const DkFunIdRemoteOpen: uint8 := 0x40
  const DkFunIdSwitchDelay: uint8 := 0x80

  const DkSwitchDelayAlwaysOpen: uint8 := 0x01
  const DkSwitchDelayAlwaysClose: uint8 := 0x02
  const DkSwitchDelayAlwaysOnline: uint8 := 0x03

  /** The only frame length `ParseCommand` accepts. */
  const FrameSize: nat := 64

  type Block32 = s: seq<uint8> | |s| == 32 witness Zeros(32)
  type Block20 = s: seq<uint8> | |s| == 20 witness Zeros(20)

  datatype Command = Command(
    magic: uint8,
    funcId: uint8,
    reserved: uint16,
    serialNum: uint32,
    data: Block32,
    seqId: uint32,
    extra: Block20)
  {
    /** The wire form: every field in declaration order, little-endian. */
    function Bytes(): (r: seq<uint8>)
      ensures |r| == FrameSize
      ensures r[0] == magic && r[1] == funcId
      ensures r[2..4] == LeBytes(reserved, 2)
      ensures r[4..8] == LeBytes(serialNum, 4)
      ensures r[8..40] == data
      ensures r[40..44] == LeBytes(seqId, 4)
      ensures r[44..64] == extra
    {
      NewByteWriter(LittleEndian)
        .PutByte(magic)
        .PutByte(funcId)
        .PutUint16(reserved)
        .PutUint32(serialNum)
        .PutBytes(data)
        .PutUint32(seqId)
        .PutBytes(extra)
        .Bytes()
    }
  }

  function NewCommand0(magic: uint8, funcId: uint8, nop: uint16, serial: uint32, seqId: uint32,
                       data: Block32, extra: Block20): (c: Command)
    ensures c.magic == magic && c.funcId == funcId && c.reserved == nop && c.serialNum == serial
    ensures c.seqId == seqId && c.data == data && c.extra == extra
  {
    Command(magic, funcId, nop, serial, data, seqId, extra)
  }

  /** A command with the protocol magic, a zero reserved word and zero extra bytes. */
  function NewCommand(funcId: uint8, serialId: uint32, seqId: uint32, data: Block32): (c: Command)
    ensures c.magic == DkMagic && c.reserved == 0 && c.extra == Zeros(20)
    ensures c.funcId == funcId && c.serialNum == serialId && c.seqId == seqId && c.data == data
  {
    NewCommand0(DkMagic, funcId, 0, serialId, seqId, data, Zeros(20))
  }

  /** The error `ParseCommand` returns, carrying the offending length. */
  datatype ParseError = InvalidFrameSize(size: nat)

  /** `ParseCommand`: any 64-byte frame is accepted, whatever its magic or
      function id; every other length is an error. */
  function ParseCommand(frame: seq<uint8>): (r: Result<Command, ParseError>)
    ensures r.Err? <==> |frame| != FrameSize
    ensures r.Err? ==> r.error == InvalidFrameSize(|frame|)
    ensures r.Ok? ==> r.value.magic == frame[0] && r.value.funcId == frame[1]
    ensures r.Ok? ==> r.value.reserved == LeValue(frame[2..4])
    ensures r.Ok? ==> r.value.serialNum == LeValue(frame[4..8])
    ensures r.Ok? ==> r.value.data == frame[8..40]
    ensures r.Ok? ==> r.value.seqId == LeValue(frame[40..44])
    ensures r.Ok? ==> r.value.extra == frame[44..64]
  {
    if |frame| != FrameSize then Err(InvalidFrameSize(|frame|))
    else
      var br := WrapByteReader(frame, LittleEndian);
      var (r1, magic) := br.GetByte();
      var (r2, funId) := r1.GetByte();
      var (r3, reserved) := r2.GetUint16();
      var (r4, serial) := r3.GetUint32();
      var (r5, data) := r4.GetBytesSize(32);
      var (r6, seqId) := r5.GetUint32();
      var (_, extra) := r6.GetBytesSize(20);
      assert r2.unread == frame[2..] && r2.GetBytesSize(2).1 == frame[2..4];
      assert r3.unread == frame[4..] && r3.GetBytesSize(4).1 == frame[4..8];
      assert r4.unread == frame[8..];
      assert r5.unread == frame[40..] && r5.GetBytesSize(4).1 == frame[40..44];
      assert r6.unread == frame[44..];
      Ok(NewCommand0(magic, funId, reserved, serial, seqId, data, extra))
  }

  /** Parsing a serialised command gives back every field, the reserved word included. */
  lemma ParseBytes(c: Command)
    ensures ParseCommand(c.Bytes()) == Ok(c)
  {
    var f := c.Bytes();
    Pow256Values();
    LeRoundTrip(c.reserved, 2);
    LeRoundTrip(c.serialNum, 4);
    LeRoundTrip(c.seqId, 4);
  }

  /** Re-serialising a parsed frame reproduces it byte for byte. */
  lemma BytesParse(frame: seq<uint8>)
    requires |frame| == FrameSize
    ensures ParseCommand(frame).Ok? && ParseCommand(frame).value.Bytes() == frame
  {
    var c := ParseCommand(frame).value;
    var b := c.Bytes();
    assert b[2..4] == frame[2..4] by { LeBytesOfValue(frame[2..4]); }
    assert b[4..8] == frame[4..8] by { LeBytesOfValue(frame[4..8]); }
    assert b[40..44] == frame[40..44] by { LeBytesOfValue(frame[40..44]); }
    forall i | 0 <= i < FrameSize ensures b[i] == frame[i] {
      if 2 <= i < 4 {
        assert b[i] == b[2..4][i - 2];
      } else if 4 <= i < 8 {
        assert b[i] == b[4..8][i - 4];
      } else if 8 <= i < 40 {
        assert b[i] == b[8..40][i - 8];
      } else if 40 <= i < 44 {
        assert b[i] == b[40..44][i - 40];
      } else if 44 <= i {
        assert b[i] == b[44..64][i - 44];
      }
    }
  }

  /** Parse and serialise compose to the identity on commands. */
  lemma RoundTripTwice(c: Command)
    ensures ParseCommand(c.Bytes()).Ok?
    ensures ParseCommand(c.Bytes()).value.Bytes() == c.Bytes()
  {
    ParseBytes(c);
  }
}
