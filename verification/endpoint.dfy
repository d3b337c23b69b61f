/** An endpoint: a node that receives control messages over gRPC, runs the
    user handler on data messages and answers pings. The frame codec
    (`CheckMessage`, `ParseMessage`, `NewMessageWithId`) is not part of this
    model: a message is the record of its header fields and body, and the
    outcome of checking and parsing an incoming frame is an input. */
module Endpoint {
  import opened Wrappers
  import opened Ints
  import opened Sequence

  /** The control variable of a frame header. */
  datatype ControlVar = Ping | Pong | Data | OtherVar(code: uint8)

  /** A framed message: sender, virtual node, control variable, sequence id
      and body. */
  datatype FramedMessage = FramedMessage(
    nodeName: string,
    virtualNodeId: string,
    controlVar: ControlVar,
    seqId: uint32,
    body: seq<uint8>)

  const ErrGrpcExecTimeout := "GRPC_EXEC_TIMEOUT"
  const ErrUnknownMessage := "UNKNOWN_MESSAGE"

  datatype EndpointState = EndpointState(nodeName: string, sequenceId: uint32)

  /** `NextSequenceId`: stores and returns the next id. */
  function NextSequenceId(e: EndpointState): (r: (EndpointState, uint32))
    ensures r.1 < MaxUint32
    ensures r.0 == EndpointState(e.nodeName, r.1)
    ensures r.1 == Advance(e.sequenceId, 1)
  {
    var id := Next(e.sequenceId);
    (e.(sequenceId := id), id)
  }

  /** `NextMessage`: a data message from this node carrying a freshly
      issued id. */
  function NextMessage(e: EndpointState, virtualNodeId: string, body: seq<uint8>): (r: (EndpointState, FramedMessage))
    ensures r.0.nodeName == e.nodeName && r.0.sequenceId == Advance(e.sequenceId, 1)
    ensures r.1 == FramedMessage(e.nodeName, virtualNodeId, Data, r.0.sequenceId, body)
  {
    var (e1, id) := NextSequenceId(e);
    (e1, FramedMessage(e.nodeName, virtualNodeId, Data, id, body))
  }

  /** Which of the handler and the caller's deadline finishes first. */
  datatype Race = HandlerFirst | DeadlineFirst

  /** What `execute` answers: the handler's frames, or the frames of a pong
      control message with the given sender, virtual node and id. */
  datatype Reply = Frames(frames: seq<uint8>) | PongReply(nodeName: string, virtualNodeId: string, seqId: uint32)

  datatype ExecResult = ExecResult(executor: EndpointState, reply: Result<Reply, string>, handlerCalled: bool)

  /** `grpcExecutor.execute`. `check` is the outcome of checking the frames,
      `controlVar` the control variable parsed from them, `handlerFrames`
      the bytes of the handler's reply and `race` the winner of the wait. */
  function Execute(e: EndpointState, check: Outcome<string>, controlVar: ControlVar,
                   handlerFrames: seq<uint8>, race: Race): (r: ExecResult)
    ensures check.Fail? ==> r == ExecResult(e, Err(check.error), false)
    ensures r.handlerCalled <==> check.Pass? && controlVar == Data
    ensures r.executor.sequenceId != e.sequenceId ==> r.reply.Ok? && r.reply.value.PongReply?
    ensures check.Pass? && controlVar == Ping ==>
      && r.executor == EndpointState(e.nodeName, Next(e.sequenceId))
      && r.reply == Ok(PongReply(e.nodeName, e.nodeName, Next(e.sequenceId)))
    ensures check.Pass? && controlVar == Data ==>
      r.reply == (if race == HandlerFirst then Ok(Frames(handlerFrames)) else Err(ErrGrpcExecTimeout))
    ensures check.Pass? && controlVar != Ping && controlVar != Data ==> r == ExecResult(e, Err(ErrUnknownMessage), false)
  {
    if check.Fail? then ExecResult(e, Err(check.error), false)
    else match controlVar
      case Ping =>
        var (e1, id) := NextSequenceId(e);
        ExecResult(e1, Ok(PongReply(e.nodeName, e.nodeName, id)), false)
      case Data =>
        if race == HandlerFirst then ExecResult(e, Ok(Frames(handlerFrames)), true)
        else ExecResult(e, Err(ErrGrpcExecTimeout), true)
      case _ => ExecResult(e, Err(ErrUnknownMessage), false)
  }

  /** A run of executions, each given as its inputs. */
  datatype Call = Call(check: Outcome<string>, controlVar: ControlVar, handlerFrames: seq<uint8>, race: Race)

  function ExecuteAll(e: EndpointState, calls: seq<Call>): (r: (EndpointState, seq<Result<Reply, string>>))
    ensures |r.1| == |calls|
    ensures r.0.nodeName == e.nodeName
    decreases |calls|
  {
    if |calls| == 0 then (e, [])
    else
      var c := calls[0];
      var x := Execute(e, c.check, c.controlVar, c.handlerFrames, c.race);
      var (e2, rest) := ExecuteAll(x.executor, calls[1..]);
      (e2, [x.reply] + rest)
  }

  function Pings(calls: seq<Call>): nat
    decreases |calls|
  {
    if |calls| == 0 then 0
    else (if calls[0].check.Pass? && calls[0].controlVar == Ping then 1 else 0) + Pings(calls[1..])
  }

  /** Over a run of executions the counter advances once per accepted ping
      and for nothing else. */
  lemma {:induction false} ExecuteAllCountsPings(e: EndpointState, calls: seq<Call>)
    ensures ExecuteAll(e, calls).0.sequenceId == Advance(e.sequenceId, Pings(calls))
    decreases |calls|
  {
    if |calls| > 0 {
      var c := calls[0];
      var x := Execute(e, c.check, c.controlVar, c.handlerFrames, c.race);
      ExecuteAllCountsPings(x.executor, calls[1..]);
      if c.check.Pass? && c.controlVar == Ping {
        AdvanceNext(e.sequenceId, Pings(calls[1..]));
      }
    }
  }
}
