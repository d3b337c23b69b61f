/** The Dongkong board-state trigger: the socket server's data handler
    validates a 64-byte frame sent by the access controller, decodes the
    card-reader event in its data block and publishes it under the device
    name `TRIGGER/<sn>/<door>/<direction>`; a background task announces the
    eight card readers (four doors, in and out) of the board. The JSON
    encoder, the socket server and the broker are outside this model: the
    published body is the decoded event record, and the outcome of the
    publish is an input. */
module DkTrigger {
  import opened Wrappers
  import opened Ints
  import opened Strings
  import opened Decimal
  import opened ByteRW
  import opened DkCommand
  import opened Events

  /** Four doors, each with an inbound and an outbound reader. */
  const DeviceCount: nat := 8
  const DoorCount: nat := 4

  const ReplyInvalidSize := "EX=ERR:INVALID_CMD_SIZE"
  const ReplyInvalidState := "EX=ERR:INVALID_STATE"
  const ReplyUnknownSn := "EX=ERR:UNKNOWN_SN"
  const ReplyOk := "EX=OK:DK_EVENT"

  /** The event as the handler reads it out of a data block; the direction
      is still the raw byte. */
  datatype BoardEvent = BoardEvent(
    sn: uint32,
    card: uint32,
    cardBytes: seq<uint8>,
    index: uint32,
    eventType: uint8,
    state: uint8,
    doorId: uint8,
    direct: uint8,
    reason: uint8)

  /** The fields of the published JSON body: the direction only by its
      name, and the card by its raw bytes where the JSON has their hex. */
  datatype EventBody = EventBody(
    sn: uint32,
    card: uint32,
    cardBytes: seq<uint8>,
    index: uint32,
    eventType: uint8,
    state: uint8,
    doorId: uint8,
    direct: string,
    reason: uint8)

  /** A published event: the device name and the event body. */
  datatype EventMessage = EventMessage(name: string, body: EventBody)

  /** What the handler answers on the connection, and what it published. */
  datatype DataResult = DataResult(reply: string, published: Option<EventMessage>)

  /** The `TRIGGER/%d/%d/%s` device name of a reader. */
  function DeviceName(sn: uint32, doorId: int, direct: uint8): (name: string)
    ensures name == "TRIGGER/" + FormatNat(sn) + "/" + FormatInt(doorId) + "/" + DirectName(direct)
  {
    JoinFour("TRIGGER", FormatNat(sn), FormatInt(doorId), DirectName(direct), '/');
    Join(["TRIGGER", FormatNat(sn), FormatInt(doorId), DirectName(direct)], '/')
  }

  /** The device name takes apart into its four levels again. */
  lemma DeviceNameLevels(sn: uint32, doorId: int, direct: uint8)
    ensures Split(DeviceName(sn, doorId, direct), '/') == ["TRIGGER", FormatNat(sn), FormatInt(doorId), DirectName(direct)]
  {
    var parts := ["TRIGGER", FormatNat(sn), FormatInt(doorId), DirectName(direct)];
    NoSlash(FormatNat(sn));
    if doorId < 0 {
      NoSlash(FormatNat(-doorId));
      assert '/' !in FormatInt(doorId) by {
        assert FormatInt(doorId) == "-" + FormatNat(-doorId);
      }
    } else {
      NoSlash(FormatNat(doorId));
    }
    SplitJoin(parts, '/');
  }

  lemma NoSlash(digits: string)
    requires AllDigits(digits)
    ensures '/' !in digits
  {
    assert forall i :: 0 <= i < |digits| ==> digits[i] != '/';
  }

  /** Readers with different serial numbers, doors or directions have
      different device names. */
  lemma DeviceNameInjective(sn1: uint32, door1: nat, dir1: uint8, sn2: uint32, door2: nat, dir2: uint8)
    requires DeviceName(sn1, door1, dir1) == DeviceName(sn2, door2, dir2)
    ensures sn1 == sn2 && door1 == door2 && DirectName(dir1) == DirectName(dir2)
  {
    DeviceNameLevels(sn1, door1, dir1);
    DeviceNameLevels(sn2, door2, dir2);
    var p1 := Split(DeviceName(sn1, door1, dir1), '/');
    var p2 := Split(DeviceName(sn2, door2, dir2), '/');
    assert p1[1] == p2[1] && p1[2] == p2[2] && p1[3] == p2[3];
    FormatNatInjective(sn1, sn2);
    FormatNatInjective(door1, door2);
  }

  // ---------------------------------------------------------------------
  // Event decoding
  // ---------------------------------------------------------------------

  /** Reads the event out of a data block, in the handler's order: card (4
      bytes), a skipped timestamp (7), index (uint32), then type, state,
      door, direction and reason bytes. */
  function DecodeEvent(sn: uint32, data: Block32): (ev: BoardEvent)
    ensures ev.sn == sn
    ensures ev.cardBytes == data[..4] && ev.card == LeValue(data[..4])
    ensures ev.index == LeValue(data[11..15])
    ensures ev.eventType == data[15] && ev.state == data[16]
    ensures ev.doorId == data[17] && ev.direct == data[18] && ev.reason == data[19]
  {
    var r0 := WrapByteReader(data, LittleEndian);
    var (r1, card) := r0.GetBytesSize(4);
    var (r2, _) := r1.GetBytesSize(7);
    var (r3, index) := r2.GetUint32();
    var (r4, eventType) := r3.GetByte();
    var (r5, state) := r4.GetByte();
    var (r6, doorId) := r5.GetByte();
    var (r7, direct) := r6.GetByte();
    var (_, reason) := r7.GetByte();
    assert card == data[..4];
    assert r2.unread == data[11..];
    assert r2.GetBytesSize(4).1 == data[11..15];
    assert r3.unread == data[15..];
    Pow256Values();
    BoardEvent(sn, LeValue(card), card, index, eventType, state, doorId, direct, reason)
  }

  /** A data block carrying `ev` where the controller puts its fields; the
      timestamp and the unused tail are zero. */
  function EventData(ev: BoardEvent): (data: Block32)
    ensures data[..4] == LeBytes(ev.card, 4)
    ensures data[11..15] == LeBytes(ev.index, 4)
    ensures data[15..20] == [ev.eventType, ev.state, ev.doorId, ev.direct, ev.reason]
  {
    var bs := LeBytes(ev.card, 4) + Zeros(7) + LeBytes(ev.index, 4)
              + [ev.eventType, ev.state, ev.doorId, ev.direct, ev.reason] + Zeros(12);
    assert bs[..4] == LeBytes(ev.card, 4);
    assert bs[11..15] == LeBytes(ev.index, 4);
    bs
  }

  /** Decoding a data block laid out by the controller gives back its event. */
  lemma DecodeEventData(ev: BoardEvent)
    requires ev.cardBytes == LeBytes(ev.card, 4)
    ensures DecodeEvent(ev.sn, EventData(ev)) == ev
  {
    Pow256Values();
    LeRoundTrip(ev.card, 4);
    LeRoundTrip(ev.index, 4);
    var data := EventData(ev);
    assert data[15..20][0] == data[15];
  }

  /** The JSON body of an event: every field as decoded, except that the
      direction byte is replaced by its name. */
  function Body(ev: BoardEvent): (b: EventBody)
    ensures b.direct == DirectName(ev.direct)
    ensures b.direct == "IN" <==> ev.direct == DirectIn
    ensures (b.sn, b.card, b.cardBytes, b.index) == (ev.sn, ev.card, ev.cardBytes, ev.index)
    ensures (b.eventType, b.state, b.doorId, b.reason) == (ev.eventType, ev.state, ev.doorId, ev.reason)
  {
    EventBody(ev.sn, ev.card, ev.cardBytes, ev.index, ev.eventType, ev.state, ev.doorId, DirectName(ev.direct), ev.reason)
  }

  /** Two events have the same body exactly when they agree on every field
      but the direction, and their directions have the same name: any
      direction byte other than 'I' reads as "OUT". */
  lemma SameBody(e1: BoardEvent, e2: BoardEvent)
    ensures Body(e1) == Body(e2) <==>
      e1.(direct := 0) == e2.(direct := 0) && (e1.direct == DirectIn <==> e2.direct == DirectIn)
  {
  }

  // ---------------------------------------------------------------------
  // The data handler
  // ---------------------------------------------------------------------

  /** `server.Data`: validates the frame (size, then function id, then
      serial number), then publishes the decoded event; `publishErr` is the
      outcome of the publish. */
  function OnData(frame: seq<uint8>, serialNumber: uint32, publishErr: Option<string>): (r: DataResult)
    ensures |frame| != FrameSize ==> r == DataResult(ReplyInvalidSize, None)
    ensures |frame| == FrameSize && frame[1] != DkFunIdBoardState ==> r == DataResult(ReplyInvalidState, None)
    ensures |frame| == FrameSize && frame[1] == DkFunIdBoardState && LeValue(frame[4..8]) != serialNumber
            ==> r == DataResult(ReplyUnknownSn, None)
    ensures r.published.Some? <==> |frame| == FrameSize && frame[1] == DkFunIdBoardState && LeValue(frame[4..8]) == serialNumber
    ensures r.published.Some? ==>
      && r.published.value.body.doorId == frame[25] && r.published.value.body.direct == DirectName(frame[26])
      && r.published.value.name == DeviceName(serialNumber, frame[25], frame[26])
      && r.published.value.body.card == LeValue(frame[8..12])
    ensures r.published.Some? ==>
      && r.published.value.body == Body(DecodeEvent(serialNumber, frame[8..40]))
      && r.published.value.body.sn == serialNumber
      && r.published.value.body.index == LeValue(frame[19..23])
      && r.published.value.body.eventType == frame[23] && r.published.value.body.state == frame[24]
      && r.published.value.body.reason == frame[27]
    ensures r.published.Some? ==> r.reply == (if publishErr.Some? then "EX=ERR:" + publishErr.value else ReplyOk)
  {
    match ParseCommand(frame)
    case Err(_) => DataResult(ReplyInvalidSize, None)
    case Ok(cmd) =>
      if cmd.funcId != DkFunIdBoardState then DataResult(ReplyInvalidState, None)
      else if cmd.serialNum != serialNumber then DataResult(ReplyUnknownSn, None)
      else
        var ev := DecodeEvent(cmd.serialNum, cmd.data);
        assert cmd.data[17] == frame[25] && cmd.data[18] == frame[26];
        assert cmd.data == frame[8..40];
        assert cmd.data[..4] == frame[8..12];
        assert cmd.data[11..15] == frame[19..23];
        var msg := EventMessage(DeviceName(cmd.serialNum, ev.doorId, ev.direct), Body(ev));
        match publishErr
        case Some(err) => DataResult("EX=ERR:" + err, Some(msg))
        case None => DataResult(ReplyOk, Some(msg))
  }

  /** A board-state frame the controller sends with the right serial number
      is published with the body of its event (every field as sent, the
      direction by name), and acknowledged when the publish succeeds. */
  lemma BoardStateDelivered(ev: BoardEvent, seqId: uint32)
    requires ev.cardBytes == LeBytes(ev.card, 4)
    ensures var frame := NewCommand(DkFunIdBoardState, ev.sn, seqId, EventData(ev)).Bytes();
            OnData(frame, ev.sn, None)
            == DataResult(ReplyOk, Some(EventMessage(DeviceName(ev.sn, ev.doorId, ev.direct), Body(ev))))
  {
    var c := NewCommand(DkFunIdBoardState, ev.sn, seqId, EventData(ev));
    ParseBytes(c);
    DecodeEventData(ev);
  }

  /** Frames that differ only in a direction byte that reads the same
      name publish the same message: an unknown direction byte is published
      as "OUT", like 'O'. */
  lemma DirectionByName(ev: BoardEvent, other: uint8, seqId: uint32)
    requires ev.cardBytes == LeBytes(ev.card, 4)
    requires ev.direct != DirectIn && other != DirectIn
    ensures var f1 := NewCommand(DkFunIdBoardState, ev.sn, seqId, EventData(ev)).Bytes();
            var f2 := NewCommand(DkFunIdBoardState, ev.sn, seqId, EventData(ev.(direct := other))).Bytes();
            OnData(f1, ev.sn, None) == OnData(f2, ev.sn, None)
  {
    BoardStateDelivered(ev, seqId);
    BoardStateDelivered(ev.(direct := other), seqId);
    SameBody(ev, ev.(direct := other));
  }

  // ---------------------------------------------------------------------
  // Reader announcements
  // ---------------------------------------------------------------------

  /** `makeReaderInfo`: the JSON fields describing one card reader. */
  datatype ReaderInfo = ReaderInfo(name: string, desc: string, command: string)

  /** A reader announcement, sent with the trigger's own name as source. */
  datatype ReaderMessage = ReaderMessage(source: string, info: ReaderInfo)

  function MakeReaderInfo(sn: uint32, doorId: int, direct: int): (info: ReaderInfo)
    ensures info.name == DeviceName(sn, doorId, ToUint8(direct))
    ensures info.desc == FormatInt(doorId) + "号门" + DirectName(ToUint8(direct)) + "读卡器"
    ensures info.command == "AT"
  {
    var directName := DirectName(ToUint8(direct));
    ReaderInfo(DeviceName(sn, doorId, ToUint8(direct)), FormatInt(doorId) + "号门" + directName + "读卡器", "AT")
  }

  function Reader(triggerName: string, sn: uint32, doorId: int, direct: uint8): ReaderMessage {
    ReaderMessage(triggerName, MakeReaderInfo(sn, doorId, direct))
  }

  /** The announced reader and the published events of the same door and
      direction carry the same device name. */
  lemma ReaderNamesMatchEvents(sn: uint32, doorId: uint8, direct: uint8)
    ensures MakeReaderInfo(sn, doorId, direct).name == DeviceName(sn, doorId, direct)
  {
  }

  /** The door table as written: four slots, of which loop step `i` fills
      slot `i` with the inbound reader of door `i+1` and slot `2i+1` with the
      outbound one. A write past the end of the table is a run-time panic,
      modelled as `None`. */
  function FillDoorsAsWritten(doors: seq<Option<ReaderMessage>>, i: nat, triggerName: string, sn: uint32)
    : (r: Option<seq<Option<ReaderMessage>>>)
    ensures r.Some? ==> |r.value| == |doors|
    decreases |doors| - i
  {
    if i >= |doors| then Some(doors)
    else
      var withIn := doors[i := Some(Reader(triggerName, sn, i + 1, DirectIn))];
      if i * 2 + 1 >= |withIn| then None
      else FillDoorsAsWritten(withIn[i * 2 + 1 := Some(Reader(triggerName, sn, i + 1, DirectOut))], i + 1, triggerName, sn)
  }

  /** The third loop step writes slot 5 of a four-slot table. */
  lemma DoorTableOutOfBounds(triggerName: string, sn: uint32)
    ensures FillDoorsAsWritten([None, None, None, None], 0, triggerName, sn).None?
  {
    var t0: seq<Option<ReaderMessage>> := [None, None, None, None];
    var t1 := t0[0 := Some(Reader(triggerName, sn, 1, DirectIn))][1 := Some(Reader(triggerName, sn, 1, DirectOut))];
    assert FillDoorsAsWritten(t0, 0, triggerName, sn) == FillDoorsAsWritten(t1, 1, triggerName, sn);
    var t2 := t1[1 := Some(Reader(triggerName, sn, 2, DirectIn))][3 := Some(Reader(triggerName, sn, 2, DirectOut))];
    assert FillDoorsAsWritten(t1, 1, triggerName, sn) == FillDoorsAsWritten(t2, 2, triggerName, sn);
  }

  /** The door table as intended: `DeviceCount` slots, slot `2i` holding the
      inbound and slot `2i+1` the outbound reader of door `i+1`. */
  method DoorTable(triggerName: string, sn: uint32) returns (doors: seq<ReaderMessage>)
    ensures |doors| == DeviceCount
    ensures forall i :: 0 <= i < DoorCount ==> doors[2 * i] == Reader(triggerName, sn, i + 1, DirectIn)
    ensures forall i :: 0 <= i < DoorCount ==> doors[2 * i + 1] == Reader(triggerName, sn, i + 1, DirectOut)
  {
    doors := [];
    var i := 0;
    while i < DoorCount
      invariant 0 <= i <= DoorCount
      invariant |doors| == 2 * i
      invariant forall k :: 0 <= k < i ==> doors[2 * k] == Reader(triggerName, sn, k + 1, DirectIn)
      invariant forall k :: 0 <= k < i ==> doors[2 * k + 1] == Reader(triggerName, sn, k + 1, DirectOut)
    {
      doors := doors + [Reader(triggerName, sn, i + 1, DirectIn), Reader(triggerName, sn, i + 1, DirectOut)];
      i := i + 1;
    }
  }

  /** The door and direction of table slot `k`. */
  function SlotDoor(k: nat): nat { k / 2 + 1 }
  function SlotDirect(k: nat): uint8 { if k % 2 == 0 then DirectIn else DirectOut }

  lemma SlotName(triggerName: string, sn: uint32, doors: seq<ReaderMessage>, k: nat)
    requires |doors| == DeviceCount && k < DeviceCount
    requires forall i :: 0 <= i < DoorCount ==> doors[2 * i] == Reader(triggerName, sn, i + 1, DirectIn)
    requires forall i :: 0 <= i < DoorCount ==> doors[2 * i + 1] == Reader(triggerName, sn, i + 1, DirectOut)
    ensures doors[k].info.name == DeviceName(sn, SlotDoor(k), SlotDirect(k))
  {
    var i := k / 2;
    if k % 2 == 0 {
      assert k == 2 * i;
    } else {
      assert k == 2 * i + 1;
    }
  }

  /** Every reader of the intended table is announced under its own name. */
  lemma DoorTableNamesDistinct(triggerName: string, sn: uint32, doors: seq<ReaderMessage>)
    requires |doors| == DeviceCount
    requires forall i :: 0 <= i < DoorCount ==> doors[2 * i] == Reader(triggerName, sn, i + 1, DirectIn)
    requires forall i :: 0 <= i < DoorCount ==> doors[2 * i + 1] == Reader(triggerName, sn, i + 1, DirectOut)
    ensures forall a, b :: 0 <= a < b < DeviceCount ==> doors[a].info.name != doors[b].info.name
  {
    forall a, b | 0 <= a < b < DeviceCount ensures doors[a].info.name != doors[b].info.name {
      SlotName(triggerName, sn, doors, a);
      SlotName(triggerName, sn, doors, b);
      if doors[a].info.name == doors[b].info.name {
        DeviceNameInjective(sn, SlotDoor(a), SlotDirect(a), sn, SlotDoor(b), SlotDirect(b));
        assert false;
      }
    }
  }
}
