/** The vendored copy of the Dongkong command codec, whose fields are
    private and read through accessors. Its wire format is proved identical
    to the other copy (`DkCommand`). */
module VendorDkCommand {
  import opened Ints
  import opened Wrappers
  import opened ByteRW
  import Dk = DkCommand

  const DkMagic: uint8 := 0x19
  const DkFunIdBoardState: uint8 := 0x20
  const DkFunIdRemoteOpen: uint8 := 0x40
  const DkFunIdSwitchDelay: uint8 := 0x80

  datatype Command = Command(
    magic: uint8,
    funcId: uint8,
    reversed: uint16,
    sn: uint32,
    data: Dk.Block32,
    seqId: uint32,
    extra: Dk.Block20)
  {
    function FuncId(): uint8 { funcId }
    function SerialNum(): uint32 { sn }
    function Data(): Dk.Block32 { data }
    function SeqId(): uint32 { seqId }

    function Bytes(): (r: seq<uint8>)
      ensures |r| == Dk.FrameSize
    {
      NewByteWriter(LittleEndian)
        .PutByte(magic)
        .PutByte(funcId)
        .PutUint16(reversed)
        .PutUint32(sn)
        .PutBytes(data)
        .PutUint32(seqId)
        .PutBytes(extra)
        .Bytes()
    }

    /** The same command in `DkCommand`'s representation. */
    function AsDk(): Dk.Command {
      Dk.Command(magic, funcId, reversed, sn, data, seqId, extra)
    }
  }

  /** The accessors give back exactly what was passed in. */
  function NewCommand0(magic: uint8, funcId: uint8, nop: uint16, serial: uint32, seqId: uint32,
                       data: Dk.Block32, extra: Dk.Block20): (c: Command)
    ensures c.FuncId() == funcId && c.SerialNum() == serial && c.Data() == data && c.SeqId() == seqId
    ensures c.magic == magic && c.reversed == nop && c.extra == extra
  {
    Command(magic, funcId, nop, serial, data, seqId, extra)
  }

  function NewCommand(funcId: uint8, serialId: uint32, seqId: uint32, data: Dk.Block32): (c: Command)
    ensures c.magic == DkMagic && c.reversed == 0 && c.extra == Zeros(20)
    ensures c.FuncId() == funcId && c.SerialNum() == serialId && c.SeqId() == seqId && c.Data() == data
  {
    NewCommand0(DkMagic, funcId, 0, serialId, seqId, data, Zeros(20))
  }

  function ParseCommand(frame: seq<uint8>): (r: Result<Command, Dk.ParseError>)
    ensures r.Err? <==> |frame| != Dk.FrameSize
    ensures r.Err? ==> r.error == Dk.InvalidFrameSize(|frame|)
    ensures r.Ok? ==> r.value.FuncId() == frame[1] && r.value.Data() == frame[8..40]
    ensures r.Ok? ==> r.value.SerialNum() == LeValue(frame[4..8]) && r.value.SeqId() == LeValue(frame[40..44])
    ensures r.Ok? ==> r.value.magic == frame[0] && r.value.reversed == LeValue(frame[2..4])
    ensures r.Ok? ==> r.value.extra == frame[44..64]
  {
    if |frame| != Dk.FrameSize then Err(Dk.InvalidFrameSize(|frame|))
    else
      var br := WrapByteReader(frame, LittleEndian);
      var (r1, magic) := br.GetByte();
      var (r2, funId) := r1.GetByte();
      var (r3, reserved) := r2.GetUint16();
      var (r4, serial) := r3.GetUint32();
      var (r5, data) := r4.GetBytesSize(32);
      var (r6, seqId) := r5.GetUint32();
      var (_, extra) := r6.GetBytesSize(20);
      assert r2.unread == frame[2..] && r2.GetBytesSize(2).1 == frame[2..4];
      assert r3.unread == frame[4..] && r3.GetBytesSize(4).1 == frame[4..8];
      assert r4.unread == frame[8..];
      assert r5.unread == frame[40..] && r5.GetBytesSize(4).1 == frame[40..44];
      assert r6.unread == frame[44..];
      Ok(NewCommand0(magic, funId, reserved, serial, seqId, data, extra))
  }

  /** Both copies put every field at the same offset with the same byte order. */
  lemma SameWireFormat(c: Command)
    ensures c.Bytes() == c.AsDk().Bytes()
  {
  }

  /** Both copies accept the same frames and decode them to the same fields. */
  lemma SameParse(frame: seq<uint8>)
    ensures ParseCommand(frame).Ok? <==> Dk.ParseCommand(frame).Ok?
    ensures ParseCommand(frame).Ok? ==> ParseCommand(frame).value.AsDk() == Dk.ParseCommand(frame).value
  {
  }

  /** Parsing a serialised command gives back every field. */
  lemma ParseBytes(c: Command)
    ensures ParseCommand(c.Bytes()) == Ok(c)
  {
    SameWireFormat(c);
    Dk.ParseBytes(c.AsDk());
    SameParse(c.Bytes());
  }

  /** Every 64-byte frame survives parse and re-serialise unchanged. */
  lemma BytesParse(frame: seq<uint8>)
    requires |frame| == Dk.FrameSize
    ensures ParseCommand(frame).Ok? && ParseCommand(frame).value.Bytes() == frame
  {
    SameParse(frame);
    Dk.BytesParse(frame);
    SameWireFormat(ParseCommand(frame).value);
  }
}
