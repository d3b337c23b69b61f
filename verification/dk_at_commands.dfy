/** The AT commands of the Dongkong endpoint (`atCommands`): each handler
    turns the arguments of an `AT+NAME=arg,...` line into one 64-byte
    Dongkong request frame for the board `broadSN`, or into an error text.
    The BCD encoder (`bcd.FromUint32`) and the function ids of the card
    commands belong to libraries outside this model and are parameters. */
module DkAtCommands {
  import opened Wrappers
  import opened Ints
  import opened Decimal
  import opened ByteRW
  import opened DkCommand

  /** Function ids of the card commands (`dongk.FunIdCardAdd/Del/Clear`). */
  datatype CardFuncIds = CardFuncIds(add: uint8, del: uint8, clear: uint8)

  /** The collaborators of the handlers: the board serial number, the BCD
      date encoder and the card function ids. */
  datatype Board = Board(broadSN: uint32, bcd: uint32 -> seq<uint8>, ids: CardFuncIds)

  const DefaultStartDate: uint32 := 20190101
  const DefaultEndDate: uint32 := 20291231
  /** Dates are accepted only when written with exactly this many characters. */
  const DateLength: nat := 8
  const ClearMark: seq<uint8> := [0x55, 0xAA, 0xAA, 0x55]

  /** `frame` decodes to a command as `NewCommand` builds it: the Dongkong
      magic, a zero reserved field, sequence id 0, zero extra bytes, and the
      given function id, serial number and data block. */
  predicate IsRequest(frame: seq<uint8>, funcId: uint8, sn: uint32, data: seq<uint8>) {
    && ParseCommand(frame).Ok?
    && var c := ParseCommand(frame).value;
       && c.magic == DkMagic && c.reserved == 0 && c.seqId == 0 && c.extra == Zeros(20)
       && c.funcId == funcId && c.serialNum == sn && c.data == data
  }

  /** The frame a handler returns: `NewCommand(funcId, sn, 0, data).Bytes()`. */
  function Request(funcId: uint8, sn: uint32, data: Block32): (frame: seq<uint8>)
    ensures |frame| == FrameSize
    ensures IsRequest(frame, funcId, sn, data)
  {
    ParseBytes(NewCommand(funcId, sn, 0, data));
    NewCommand(funcId, sn, 0, data).Bytes()
  }

  /** A data block holding `bs`, zero-padded to 32 bytes. */
  function Block(bs: seq<uint8>): (data: Block32)
    requires |bs| <= 32
    ensures data[..|bs|] == bs
    ensures forall i :: |bs| <= i < 32 ==> data[i] == 0
  {
    bs + Zeros(32 - |bs|)
  }

  // ---------------------------------------------------------------------
  // Argument helpers
  // ---------------------------------------------------------------------

  /** `getIntAt`: the argument at `idx` as an unsigned 32-bit value, or
      `def` when it is missing or not a decimal integer. */
  function GetIntAt(args: seq<string>, idx: nat, def: uint32): (r: uint32)
    ensures idx >= |args| ==> r == def
    ensures idx < |args| && ParseInt(args[idx]).None? ==> r == def
    ensures idx < |args| && ParseInt(args[idx]).Some? ==> (r - ParseInt(args[idx]).value) % 0x1_0000_0000 == 0
  {
    if idx > |args| - 1 then def
    else match ParseInt(args[idx])
      case None => def
      case Some(v) => ToUint32(v)
  }

  /** The date value `getDateAt` encodes: the argument at `idx` when it is
      present, exactly eight characters long and a decimal integer, else
      `def`. */
  function DateAt(args: seq<string>, idx: nat, def: uint32): (r: uint32)
    ensures idx >= |args| || |args[idx]| != DateLength || ParseInt(args[idx]).None? ==> r == def
    ensures idx < |args| && |args[idx]| == DateLength && ParseInt(args[idx]).Some?
            ==> (r - ParseInt(args[idx]).value) % 0x1_0000_0000 == 0
  {
    if idx <= |args| - 1 && |args[idx]| == DateLength then
      match ParseInt(args[idx])
      case Some(v) => ToUint32(v)
      case None => def
    else def
  }

  /** `getDateAt`: the BCD bytes of `DateAt`. */
  function GetDateAt(board: Board, args: seq<string>, idx: nat, def: uint32): (r: seq<uint8>)
    ensures r == board.bcd(DateAt(args, idx, def))
  {
    board.bcd(DateAt(args, idx, def))
  }

  /** A value written in decimal is read back by `GetIntAt`. */
  lemma GetIntAtFormat(args: seq<string>, idx: nat, def: uint32, v: uint32)
    requires idx < |args| && args[idx] == FormatNat(v)
    ensures GetIntAt(args, idx, def) == v
  {
    ParseFormat(v);
  }

  /** An eight-digit date written in decimal is read back by `DateAt`; one
      with any other number of digits is replaced by the default. */
  lemma DateAtFormat(args: seq<string>, idx: nat, def: uint32, v: uint32)
    requires idx < |args| && args[idx] == FormatNat(v)
    ensures |FormatNat(v)| == DateLength ==> DateAt(args, idx, def) == v
    ensures |FormatNat(v)| != DateLength ==> DateAt(args, idx, def) == def
  {
    ParseFormat(v);
  }

  // ---------------------------------------------------------------------
  // Handlers
  // ---------------------------------------------------------------------

  /** `AT+OPEN=SWITCH_ID`: a remote-open request for the switch. */
  function Open(board: Board, args: seq<string>): (r: Result<seq<uint8>, string>)
    requires |args| >= 1
    ensures r.Err? <==> ParseInt(args[0]).None?
    ensures r.Err? ==> r.error == "INVALID_SWITCH_ID:" + args[0]
    ensures r.Ok? ==> ParseCommand(r.value).Ok? && var data := ParseCommand(r.value).value.data;
      && IsRequest(r.value, DkFunIdRemoteOpen, board.broadSN, data)
      && (data[0] - ParseInt(args[0]).value) % 0x100 == 0
      && data[1..] == Zeros(31)
  {
    match ParseInt(args[0])
    case None => Err("INVALID_SWITCH_ID:" + args[0])
    case Some(switchId) =>
      var data := OpenData(switchId);
      assert IsRequest(Request(DkFunIdRemoteOpen, board.broadSN, data), DkFunIdRemoteOpen, board.broadSN, data);
      Ok(Request(DkFunIdRemoteOpen, board.broadSN, data))
  }

  /** The data block of a remote-open request: the switch's low byte, then
      zeros. */
  function OpenData(switchId: int): (data: Block32)
    ensures (data[0] - switchId) % 0x100 == 0
    ensures data[1..] == Zeros(31)
  {
    var data := Block([ToUint8(switchId)]);
    assert data[1..] == Zeros(31);
    data
  }

  /** `AT+DELAY=SWITCH_ID,DELAY_SEC`: puts the switch into on-line control
      with the given opening delay; both numbers are truncated to a byte. */
  function Delay(board: Board, args: seq<string>): (r: Result<seq<uint8>, string>)
    requires |args| >= 2
    ensures r.Err? <==> ParseInt(args[0]).None? || ParseInt(args[1]).None?
    ensures ParseInt(args[0]).None? ==> r == Err("INVALID_SWITCH_ID:" + args[0])
    ensures ParseInt(args[0]).Some? && ParseInt(args[1]).None? ==> r == Err("INVALID_DELAY_SEC:" + args[1])
    ensures r.Ok? ==> IsDelayRequest(r.value, board.broadSN, ParseInt(args[0]).value, ParseInt(args[1]).value)
  {
    var switchId := ParseInt(args[0]);
    var seconds := ParseInt(args[1]);
    if switchId.None? then Err("INVALID_SWITCH_ID:" + args[0])
    else if seconds.None? then Err("INVALID_DELAY_SEC:" + args[1])
    else Ok(DelayRequest(board, switchId.value, seconds.value))
  }

  /** `frame` asks the board to put the switch into on-line control with the
      given opening delay, both truncated to a byte. */
  predicate IsDelayRequest(frame: seq<uint8>, sn: uint32, switchId: int, seconds: int) {
    && ParseCommand(frame).Ok?
    && var data := ParseCommand(frame).value.data;
      && IsRequest(frame, DkFunIdSwitchDelay, sn, data)
      && (data[0] - switchId) % 0x100 == 0
      && data[1] == DkSwitchDelayAlwaysOnline
      && (data[2] - seconds) % 0x100 == 0
      && data[3..] == Zeros(29)
  }

  /** The data block of a delay request. */
  function DelayData(switchId: int, seconds: int): (data: Block32)
    ensures (data[0] - switchId) % 0x100 == 0
    ensures data[1] == DkSwitchDelayAlwaysOnline
    ensures (data[2] - seconds) % 0x100 == 0
    ensures data[3..] == Zeros(29)
  {
    var data := Block([ToUint8(switchId), DkSwitchDelayAlwaysOnline, ToUint8(seconds)]);
    assert data[..3] == [ToUint8(switchId), DkSwitchDelayAlwaysOnline, ToUint8(seconds)];
    assert data[3..] == Zeros(29);
    data
  }

  function DelayRequest(board: Board, switchId: int, seconds: int): (frame: seq<uint8>)
    ensures IsDelayRequest(frame, board.broadSN, switchId, seconds)
  {
    var data := DelayData(switchId, seconds);
    var frame := Request(DkFunIdSwitchDelay, board.broadSN, data);
    assert IsRequest(frame, DkFunIdSwitchDelay, board.broadSN, data);
    frame
  }

  /** The door byte the ADD handler writes for argument `idx`. */
  function DoorAt(args: seq<string>, idx: nat): uint8 {
    ToUint8(GetIntAt(args, idx, 0))
  }

  /** The bytes the ADD handler writes, in order: the card number as a
      little-endian uint32, the BCD start date, the BCD end date and the
      four door bytes. */
  function AddPayload(board: Board, card: int, args: seq<string>): (w: ByteWriter)
    ensures w.order == LittleEndian
    ensures w.Bytes() == LeBytes(ToUint32(card), 4)
                       + GetDateAt(board, args, 1, DefaultStartDate) + GetDateAt(board, args, 2, DefaultEndDate)
                       + [DoorAt(args, 3), DoorAt(args, 4), DoorAt(args, 5), DoorAt(args, 6)]
  {
    NewByteWriter(LittleEndian)
      .PutUint32(ToUint32(card))
      .PutBytes(GetDateAt(board, args, 1, DefaultStartDate))
      .PutBytes(GetDateAt(board, args, 2, DefaultEndDate))
      .PutByte(DoorAt(args, 3))
      .PutByte(DoorAt(args, 4))
      .PutByte(DoorAt(args, 5))
      .PutByte(DoorAt(args, 6))
  }

  /** The first 32 bytes of `bs`, zero-padded: what a 32-byte block filled
      in place by a writer ends up holding. */
  function Fit(bs: seq<uint8>): (data: Block32)
    ensures forall i :: 0 <= i < 32 && i < |bs| ==> data[i] == bs[i]
    ensures forall i :: |bs| <= i < 32 ==> data[i] == 0
  {
    if |bs| >= 32 then bs[..32] else Block(bs)
  }

  /** `AT+ADD=CARD,...` as written: the writer wraps a copy of the zero data
      block and appends behind it, so the block sent to the board stays all
      zero whatever the arguments. */
  function AddAsWritten(board: Board, args: seq<string>): (r: Result<seq<uint8>, string>)
    requires |args| >= 1
    ensures r.Err? <==> ParseInt(args[0]).None?
    ensures r.Err? ==> r.error == "INVALID_CARD:" + args[0]
    ensures r.Ok? ==> IsRequest(r.value, board.ids.add, board.broadSN, Zeros(32))
  {
    match ParseInt(args[0])
    case None => Err("INVALID_CARD:" + args[0])
    case Some(card) =>
      var data: Block32 := Zeros(32);
      var w := WrapByteWriter(data, LittleEndian)
        .PutUint32(ToUint32(card))
        .PutBytes(GetDateAt(board, args, 1, DefaultStartDate))
        .PutBytes(GetDateAt(board, args, 2, DefaultEndDate))
        .PutByte(ToUint8(GetIntAt(args, 3, 0)))
        .PutByte(ToUint8(GetIntAt(args, 4, 0)))
        .PutByte(ToUint8(GetIntAt(args, 5, 0)))
        .PutByte(ToUint8(GetIntAt(args, 6, 0)));
      Ok(Request(board.ids.add, board.broadSN, data))
  }

  /** `AT+DELETE=CARD` as written: the same wrapped writer, so the card
      number never reaches the data block. */
  function DeleteAsWritten(board: Board, args: seq<string>): (r: Result<seq<uint8>, string>)
    requires |args| >= 1
    ensures r.Err? <==> ParseInt(args[0]).None?
    ensures r.Err? ==> r.error == "INVALID_CARD:" + args[0]
    ensures r.Ok? ==> IsRequest(r.value, board.ids.del, board.broadSN, Zeros(32))
  {
    match ParseInt(args[0])
    case None => Err("INVALID_CARD:" + args[0])
    case Some(card) =>
      var data: Block32 := Zeros(32);
      var w := WrapByteWriter(data, LittleEndian).PutUint32(ToUint32(card));
      Ok(Request(board.ids.del, board.broadSN, data))
  }

  /** Card 1 is sent as card 0 by both handlers as written. */
  lemma CardLostAsWritten(board: Board)
    ensures AddAsWritten(board, ["1"]).Ok?
    ensures ParseCommand(AddAsWritten(board, ["1"]).value).value.data[..4] == [0, 0, 0, 0]
    ensures DeleteAsWritten(board, ["1"]).Ok?
    ensures ParseCommand(DeleteAsWritten(board, ["1"]).value).value.data[..4] == [0, 0, 0, 0]
    ensures LeBytes(1, 4) != [0, 0, 0, 0]
  {
    CardOneParses();
    var a := AddAsWritten(board, ["1"]);
    var d := DeleteAsWritten(board, ["1"]);
    assert ParseCommand(a.value).value.data == Zeros(32);
    assert ParseCommand(d.value).value.data == Zeros(32);
    LeByteAt(1, 4, 0);
  }

  /** The card text "1" parses as 1. */
  lemma CardOneParses()
    ensures ParseInt("1") == Some(1)
  {
    ParseFormat(1);
    assert FormatInt(1) == "1";
  }

  /** `AT+ADD=CARD,...` writing into the data block itself: the block holds
      the bytes of `AddPayload`. */
  function Add(board: Board, args: seq<string>): (r: Result<seq<uint8>, string>)
    requires |args| >= 1
    ensures r.Err? <==> ParseInt(args[0]).None?
    ensures r.Err? ==> r.error == "INVALID_CARD:" + args[0]
    ensures r.Ok? ==> IsRequest(r.value, board.ids.add, board.broadSN,
                                Fit(AddPayload(board, ParseInt(args[0]).value, args).Bytes()))
  {
    match ParseInt(args[0])
    case None => Err("INVALID_CARD:" + args[0])
    case Some(card) => Ok(Request(board.ids.add, board.broadSN, Fit(AddPayload(board, card, args).Bytes())))
  }

  /** `AT+DELETE=CARD` writing into the data block itself. */
  function Delete(board: Board, args: seq<string>): (r: Result<seq<uint8>, string>)
    requires |args| >= 1
    ensures r.Err? <==> ParseInt(args[0]).None?
    ensures r.Err? ==> r.error == "INVALID_CARD:" + args[0]
    ensures r.Ok? ==> ParseCommand(r.value).Ok? && var data := ParseCommand(r.value).value.data;
      && IsRequest(r.value, board.ids.del, board.broadSN, data)
      && LeValue(data[..4]) == ToUint32(ParseInt(args[0]).value)
      && data[4..] == Zeros(28)
  {
    match ParseInt(args[0])
    case None => Err("INVALID_CARD:" + args[0])
    case Some(card) =>
      var w := NewByteWriter(LittleEndian).PutUint32(ToUint32(card));
      var data := Block(w.Bytes());
      assert data[..4] == w.Bytes();
      assert data[4..] == Zeros(28);
      Ok(Request(board.ids.del, board.broadSN, data))
  }

  /** Four 4-byte fields followed by padding are found at their offsets. */
  lemma Fields4(a: seq<uint8>, b: seq<uint8>, c: seq<uint8>, d: seq<uint8>, z: seq<uint8>)
    requires |a| == 4 && |b| == 4 && |c| == 4 && |d| == 4
    ensures var x := a + b + c + d + z;
            x[..4] == a && x[4..8] == b && x[8..12] == c && x[12..16] == d && x[16..] == z
  {
  }

  /** The ADD data block starts with the card number, little-endian. */
  lemma AddCardField(board: Board, card: int, args: seq<string>)
    ensures LeValue(Fit(AddPayload(board, card, args).Bytes())[..4]) == ToUint32(card)
  {
    var card32 := LeBytes(ToUint32(card), 4);
    var bs := AddPayload(board, card, args).Bytes();
    var data := Fit(bs);
    assert bs[..4] == card32;
    assert data[..4] == card32 by {
      assert forall i :: 0 <= i < 4 ==> data[i] == bs[i];
    }
    Pow256Values();
    LeRoundTrip(ToUint32(card), 4);
  }

  /** The ADD data block: the card number little-endian in bytes 0-3; with
      four-byte BCD dates, the start date in 4-7, the end date in 8-11 and
      the door bytes in 12-15, the rest zero. */
  lemma AddLayout(board: Board, card: int, args: seq<string>)
    ensures LeValue(Fit(AddPayload(board, card, args).Bytes())[..4]) == ToUint32(card)
    ensures |GetDateAt(board, args, 1, DefaultStartDate)| == 4 && |GetDateAt(board, args, 2, DefaultEndDate)| == 4 ==>
      var data := Fit(AddPayload(board, card, args).Bytes());
      && data[4..8] == GetDateAt(board, args, 1, DefaultStartDate)
      && data[8..12] == GetDateAt(board, args, 2, DefaultEndDate)
      && data[12..16] == [DoorAt(args, 3), DoorAt(args, 4), DoorAt(args, 5), DoorAt(args, 6)]
      && data[16..] == Zeros(16)
  {
    AddCardField(board, card, args);
    var card32 := LeBytes(ToUint32(card), 4);
    var start := GetDateAt(board, args, 1, DefaultStartDate);
    var end := GetDateAt(board, args, 2, DefaultEndDate);
    var doors := [DoorAt(args, 3), DoorAt(args, 4), DoorAt(args, 5), DoorAt(args, 6)];
    var bs := AddPayload(board, card, args).Bytes();
    if |start| == 4 && |end| == 4 {
      assert |bs| == 16;
      assert Fit(bs) == bs + Zeros(16);
      Fields4(card32, start, end, doors, Zeros(16));
    }
  }

  /** The card number of a DELETE request is read back from its data block. */
  lemma DeleteCarriesCard(board: Board, card: uint32)
    ensures Delete(board, [FormatNat(card)]).Ok?
    ensures ParseCommand(Delete(board, [FormatNat(card)]).value).value.data[..4] == LeBytes(card, 4)
  {
    ParseFormat(card);
    var r := Delete(board, [FormatNat(card)]);
    var data := ParseCommand(r.value).value.data;
    LeBytesOfValue(data[..4]);
  }

  /** `AT+CLEAR`: a clear-all-cards request marked 55 AA AA 55. */
  function Clear(board: Board, args: seq<string>): (r: Result<seq<uint8>, string>)
    ensures r.Ok?
    ensures ParseCommand(r.value).Ok? && var data := ParseCommand(r.value).value.data;
      && IsRequest(r.value, board.ids.clear, board.broadSN, data)
      && data[..4] == ClearMark && data[4..] == Zeros(28)
  {
    var data := Block(ClearMark);
    assert data[4..] == Zeros(28);
    Ok(Request(board.ids.clear, board.broadSN, data))
  }

  // ---------------------------------------------------------------------
  // Registry
  // ---------------------------------------------------------------------

  datatype Handler = OpenHandler | DelayHandler | AddHandler | DeleteHandler | ClearHandler

  /** A registration: the handler and the argument count the registry checks
      before calling it (`AddX`), or none (`Add`). */
  datatype Registration = Registration(handler: Handler, arity: Option<nat>)

  /** The number of leading arguments a handler reads unconditionally. */
  function Reads(h: Handler): nat {
    match h
    case OpenHandler => 1
    case DelayHandler => 2
    case AddHandler => 1
    case DeleteHandler => 1
    case ClearHandler => 0
  }

  /** The registrations of `atCommands`, by command name. */
  function Lookup(name: string): (r: Option<Registration>)
    ensures r.Some? <==> name in {"OPEN", "DELAY", "ADD", "ADD0", "DELETE", "CLEAR"}
    ensures r.Some? && r.value.arity.Some? ==> r.value.arity.value == Reads(r.value.handler)
  {
    if name == "OPEN" then Some(Registration(OpenHandler, Some(1)))
    else if name == "DELAY" then Some(Registration(DelayHandler, Some(2)))
    else if name == "ADD" then Some(Registration(AddHandler, Some(1)))
    else if name == "ADD0" then Some(Registration(AddHandler, None))
    else if name == "DELETE" then Some(Registration(DeleteHandler, Some(1)))
    else if name == "CLEAR" then Some(Registration(ClearHandler, Some(0)))
    else None
  }

  /** How the card handlers fill the data block: as written, through a
      writer that appends behind a copy of the block, so the block stays
      zero; or corrected, in place. */
  datatype Writing = AsWritten | Corrected

  /** Runs a registered handler. Through the registry as written, ADD, ADD0
      and DELETE send an all-zero data block; the corrected handlers send
      the card. Both variants fail on the same arguments with the same
      error. */
  function Run(board: Board, h: Handler, args: seq<string>, v: Writing): (r: Result<seq<uint8>, string>)
    requires |args| >= Reads(h)
    ensures r.Ok? ==> |r.value| == FrameSize
    ensures r.Ok? ==> ParseCommand(r.value).Ok? && ParseCommand(r.value).value.serialNum == board.broadSN
    ensures (h == AddHandler || h == DeleteHandler) ==>
      && (r.Err? <==> ParseInt(args[0]).None?)
      && (r.Err? ==> r.error == "INVALID_CARD:" + args[0])
    ensures v == AsWritten && (h == AddHandler || h == DeleteHandler) && r.Ok? ==>
      ParseCommand(r.value).value.data == Zeros(32)
    ensures v == Corrected && h == AddHandler && r.Ok? ==>
      ParseCommand(r.value).value.data == Fit(AddPayload(board, ParseInt(args[0]).value, args).Bytes())
    ensures v == Corrected && h == DeleteHandler && r.Ok? ==>
      LeValue(ParseCommand(r.value).value.data[..4]) == ToUint32(ParseInt(args[0]).value)
  {
    match h
    case OpenHandler => Open(board, args)
    case DelayHandler => Delay(board, args)
    case AddHandler => if v == AsWritten then AddAsWritten(board, args) else Add(board, args)
    case DeleteHandler => if v == AsWritten then DeleteAsWritten(board, args) else Delete(board, args)
    case ClearHandler => Clear(board, args)
  }

  /** The two variants differ only in the card handlers' data blocks: every
      other command, and every failure, is the same. */
  lemma RunVariants(board: Board, h: Handler, args: seq<string>)
    requires |args| >= Reads(h)
    ensures h != AddHandler && h != DeleteHandler ==> Run(board, h, args, AsWritten) == Run(board, h, args, Corrected)
    ensures Run(board, h, args, AsWritten).Err? <==> Run(board, h, args, Corrected).Err?
    ensures Run(board, h, args, AsWritten).Err? ==> Run(board, h, args, AsWritten) == Run(board, h, args, Corrected)
  {
  }

  /** "ADD0" runs the very handler "ADD" runs. */
  lemma Add0IsAdd(board: Board, args: seq<string>, v: Writing)
    requires |args| >= 1
    ensures Lookup("ADD0").Some? && Lookup("ADD").Some?
    ensures Lookup("ADD0").value.handler == Lookup("ADD").value.handler == AddHandler
    ensures Run(board, Lookup("ADD0").value.handler, args, v) == Run(board, Lookup("ADD").value.handler, args, v)
  {
  }
}
