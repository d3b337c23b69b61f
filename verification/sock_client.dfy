/** The socket client behind the socket endpoint (`SockClient`): a
    connection state machine over a TCP or UDP connection with
    send-then-receive execution. Name resolution, dialing, deadlines and the
    bytes moved by the connection are the network's doing; their outcomes are
    inputs here. */
module SockClient {
  import opened Wrappers
  import opened Ints

  /** The connection state (`disconnected`, `connecting`, `connected`). */
  datatype ConnState = Disconnected | Connecting | Connected

  /** The `uint32` stored for each state, in `iota` order. */
  function StateCode(s: ConnState): (r: uint32)
    ensures r <= 2
    ensures s == Disconnected <==> r == 0
    ensures s == Connected <==> r == 2
  {
    match s
    case Disconnected => 0
    case Connecting => 1
    case Connected => 2
  }

  /** `SockOptions`. Durations are nanosecond counts. */
  datatype SockOptions = SockOptions(
    network: string,
    addr: string,
    readTimeout: int,
    writeTimeout: int,
    autoReconnect: bool,
    reconnectInterval: int,
    keepAlive: bool,
    keepAliveInterval: int,
    bufferSize: uint64)

  /** The zero value of `SockOptions`. */
  const ZeroOptions := SockOptions("", "", 0, 0, false, 0, false, 0, 0)

  predicate IsValid(o: SockOptions) {
    o.network != "" && o.addr != ""
  }

  /** Whether an error value is a `net.Error`, and if so its `Timeout()` and
      `Temporary()` answers. */
  datatype ErrorKind = PlainError | NetError(timeout: bool, temporary: bool)

  datatype Error = Error(text: string, kind: ErrorKind)

  const NotReady := Error("Client connection is not ready", PlainError)

  /** `errors.WithMessage`: the message is put in front of the cause's text,
      and the wrapper is no `net.Error` itself. */
  function WithMessage(cause: Error, msg: string): (r: Error)
    ensures r.kind == PlainError
    ensures |r.text| == |msg| + 2 + |cause.text|
    ensures r.text[..|msg|] == msg && r.text[|msg| + 2..] == cause.text
  {
    Error(msg + ": " + cause.text, PlainError)
  }

  /** `IsNetTempErr`: a network error that is a timeout or temporary; a nil
      error or a non-network error is not. */
  predicate IsNetTempErr(err: Option<Error>) {
    match err
    case None => false
    case Some(e) => e.kind.NetError? && (e.kind.timeout || e.kind.temporary)
  }

  /** The client. `hasConn` records whether the `conn` field is non-nil: a
      failed TCP dial still stores a typed nil connection, which counts. */
  datatype Client = Client(opts: SockOptions, state: ConnState, hasConn: bool)

  /** `NewSockClient`: the first options given, or the zero options, and the
      `connecting` state with no connection. */
  function NewSockClient(opts: seq<SockOptions>): (c: Client)
    ensures c.state == Connecting && !c.hasConn
    ensures |opts| > 0 ==> c.opts == opts[0]
    ensures |opts| == 0 ==> c.opts == ZeroOptions && !IsValid(c.opts)
  {
    Client(if |opts| > 0 then opts[0] else ZeroOptions, Connecting, false)
  }

  // ---------------------------------------------------------------------
  // Open and Close
  // ---------------------------------------------------------------------

  /** What the network answers to the address resolution and the dial of
      one `Open`. */
  datatype DialOutcome = DialOutcome(resolveErr: Option<Error>, dialErr: Option<Error>)

  predicate DialSucceeds(d: DialOutcome) {
    d.resolveErr.None? && d.dialErr.None?
  }

  predicate IsTcp(network: string) {
    network == "tcp" || network == "TCP"
  }

  predicate IsUdp(network: string) {
    network == "udp" || network == "UDP"
  }

  /** `connectTcp` via `newTcpConn`: a resolve error is returned as it is, a
      dial error behind "TCP dial failed"; the connection field is assigned
      in every case, and only success moves to `connected`. */
  function ConnectTcp(c: Client, d: DialOutcome): (r: (Client, Option<Error>))
    ensures r.0.opts == c.opts && r.0.hasConn
    ensures r.1.None? <==> DialSucceeds(d)
    ensures r.0.state == (if DialSucceeds(d) then Connected else c.state)
    ensures d.resolveErr.Some? ==> r.1 == d.resolveErr
    ensures d.resolveErr.None? && d.dialErr.Some? ==>
      r.1 == Some(WithMessage(d.dialErr.value, "TCP dial failed"))
  {
    if d.resolveErr.Some? then (c.(hasConn := true), d.resolveErr)
    else if d.dialErr.Some? then (c.(hasConn := true), Some(WithMessage(d.dialErr.value, "TCP dial failed")))
    else (c.(state := Connected, hasConn := true), None)
  }

  /** `Open`. With automatic reconnection a TCP client hands connecting to a
      background loop (not modelled) and answers nil at once. */
  function Open(c: Client, d: DialOutcome): (r: (Client, Option<Error>))
    ensures r.0.opts == c.opts
    ensures r.0.state == Connected <==>
      c.state == Connected ||
      ((IsUdp(c.opts.network) || (IsTcp(c.opts.network) && !c.opts.autoReconnect)) && DialSucceeds(d))
    ensures r.0.state != Connected ==> r.0.state == c.state
    ensures r.1.None? <==>
      (IsTcp(c.opts.network) && (c.opts.autoReconnect || DialSucceeds(d))) ||
      (IsUdp(c.opts.network) && DialSucceeds(d))
    ensures IsUdp(c.opts.network) && d.resolveErr.Some? ==>
      r == (c, Some(WithMessage(d.resolveErr.value, "Resolve udp address failed")))
    ensures IsUdp(c.opts.network) && d.resolveErr.None? && d.dialErr.Some? ==>
      r == (c, Some(WithMessage(d.dialErr.value, "UDP dial failed")))
    ensures !IsTcp(c.opts.network) && !IsUdp(c.opts.network) ==>
      r == (c, Some(Error("Unknown network type: " + c.opts.network, PlainError)))
  {
    var network := c.opts.network;
    if IsTcp(network) then
      if c.opts.autoReconnect then (c, None) else ConnectTcp(c, d)
    else if IsUdp(network) then
      if d.resolveErr.Some? then (c, Some(WithMessage(d.resolveErr.value, "Resolve udp address failed")))
      else if d.dialErr.Some? then (c, Some(WithMessage(d.dialErr.value, "UDP dial failed")))
      else (c.(state := Connected, hasConn := true), None)
    else (c, Some(Error("Unknown network type: " + network, PlainError)))
  }

  /** `Close`: always `disconnected`; the connection's own close error is
      returned when there is a connection. */
  function Close(c: Client, closeErr: Option<Error>): (r: (Client, Option<Error>))
    ensures r.0 == c.(state := Disconnected)
    ensures r.1 == (if c.hasConn then closeErr else None)
  {
    (c.(state := Disconnected), if c.hasConn then closeErr else None)
  }

  // ---------------------------------------------------------------------
  // Send, Receive, Execute
  // ---------------------------------------------------------------------

  /** Which `checkSocketState` to use: the one in the source, which demotes
      on every result that is not a temporary network error (a nil error
      included), or the corrected one, which demotes only on a real error. */
  datatype Demotion = AsWritten | Corrected

  function CheckSocketState(c: Client, err: Option<Error>, d: Demotion): (r: Client)
    ensures r.opts == c.opts && r.hasConn == c.hasConn
    ensures r.state == c.state || r.state == Connecting
    ensures d == AsWritten ==> (r.state == Connecting <==> c.state == Connecting || !IsNetTempErr(err))
    ensures d == Corrected ==>
      (r.state == Connecting <==> c.state == Connecting || (err.Some? && !IsNetTempErr(err)))
  {
    var demote := match d
      case AsWritten => !IsNetTempErr(err)
      case Corrected => err.Some? && !IsNetTempErr(err);
    if demote then c.(state := Connecting) else c
  }

  /** What the connection answers to one write: the deadline error, the
      number of bytes written and the write error. */
  datatype WriteOutcome = WriteOutcome(deadlineErr: Option<Error>, written: nat, writeErr: Option<Error>)

  /** What the connection answers to one read: the deadline error, the bytes
      read and the read error. */
  datatype ReadOutcome = ReadOutcome(deadlineErr: Option<Error>, got: seq<uint8>, readErr: Option<Error>)

  /** `Send`. A `Write` never reports more bytes than it was given. */
  function Send(c: Client, data: seq<uint8>, w: WriteOutcome, d: Demotion): (r: (Client, nat, Option<Error>))
    requires w.written <= |data|
    ensures r.1 <= |data|
    ensures r.0.opts == c.opts && r.0.hasConn == c.hasConn
    ensures r.0.state == c.state || r.0.state == Connecting
    ensures c.state != Connected ==> r == (c, 0, Some(NotReady))
    ensures c.state == Connected && w.deadlineErr.Some? ==>
      r == (CheckSocketState(c, w.deadlineErr, d), 0, w.deadlineErr)
    ensures c.state == Connected && w.deadlineErr.None? ==>
      r == (CheckSocketState(c, w.writeErr, d), w.written, w.writeErr)
  {
    if c.state != Connected then (c, 0, Some(NotReady))
    else if w.deadlineErr.Some? then (CheckSocketState(c, w.deadlineErr, d), 0, w.deadlineErr)
    else (CheckSocketState(c, w.writeErr, d), w.written, w.writeErr)
  }

  /** `Receive` into a buffer of `bufferSize` bytes; the result is the
      filled part `buff[:n]`. A `Read` never fills more than the buffer. */
  function Receive(c: Client, bufferSize: nat, rd: ReadOutcome, d: Demotion): (r: (Client, seq<uint8>, Option<Error>))
    requires |rd.got| <= bufferSize
    ensures |r.1| <= bufferSize
    ensures r.0.opts == c.opts && r.0.hasConn == c.hasConn
    ensures r.0.state == c.state || r.0.state == Connecting
    ensures c.state != Connected ==> r == (c, [], Some(NotReady))
    ensures c.state == Connected && rd.deadlineErr.Some? ==>
      r == (CheckSocketState(c, rd.deadlineErr, d), [], rd.deadlineErr)
    ensures c.state == Connected && rd.deadlineErr.None? ==>
      r == (CheckSocketState(c, rd.readErr, d), rd.got, rd.readErr)
  {
    if c.state != Connected then (c, [], Some(NotReady))
    else if rd.deadlineErr.Some? then (CheckSocketState(c, rd.deadlineErr, d), [], rd.deadlineErr)
    else (CheckSocketState(c, rd.readErr, d), rd.got, rd.readErr)
  }

  /** `Execute`: send, then receive into a buffer of the configured size. */
  function Execute(c: Client, input: seq<uint8>, w: WriteOutcome, rd: ReadOutcome, d: Demotion): (r: (Client, Result<seq<uint8>, Error>))
    requires w.written <= |input| && |rd.got| <= c.opts.bufferSize
    ensures r.0.opts == c.opts && r.0.hasConn == c.hasConn
    ensures r.0.state == c.state || r.0.state == Connecting
    ensures r.1.Ok? ==> |r.1.value| <= c.opts.bufferSize
    ensures c.state != Connected ==> r == (c, Err(NotReady))
    ensures r.1.Ok? ==> r.1.value == rd.got
    ensures r.1.Err? ==>
      || r.1.error == NotReady
      || Some(r.1.error) == w.deadlineErr || Some(r.1.error) == w.writeErr
      || Some(r.1.error) == rd.deadlineErr || Some(r.1.error) == rd.readErr
    ensures c.state == Connected && w.deadlineErr.Some? ==> r.1 == Err(w.deadlineErr.value)
    ensures c.state == Connected && w.deadlineErr.None? && w.writeErr.Some? ==> r.1 == Err(w.writeErr.value)
  {
    var (c1, _, sendErr) := Send(c, input, w, d);
    if sendErr.Some? then (c1, Err(sendErr.value))
    else
      var (c2, got, recvErr) := Receive(c1, c.opts.bufferSize, rd, d);
      if recvErr.Some? then (c2, Err(recvErr.value)) else (c2, Ok(got))
  }

  /** All network answers of one execution are clean. */
  predicate CleanExchange(w: WriteOutcome, rd: ReadOutcome) {
    w.deadlineErr.None? && w.writeErr.None? && rd.deadlineErr.None? && rd.readErr.None?
  }

  /** With the corrected state check, an execution succeeds exactly when the
      client is connected and the exchange is clean; it then answers the
      bytes read and stays connected. */
  lemma ExecuteSucceeds(c: Client, input: seq<uint8>, w: WriteOutcome, rd: ReadOutcome)
    requires w.written <= |input| && |rd.got| <= c.opts.bufferSize
    ensures Execute(c, input, w, rd, Corrected).1.Ok? <==> c.state == Connected && CleanExchange(w, rd)
    ensures c.state == Connected && CleanExchange(w, rd) ==>
      Execute(c, input, w, rd, Corrected) == (c, Ok(rd.got))
  {
  }

  /** As written, no execution ever succeeds: a clean send demotes the client
      to `connecting`, so the receive that follows is refused. */
  lemma ExecuteFailsAsWritten(c: Client, input: seq<uint8>, w: WriteOutcome, rd: ReadOutcome)
    requires w.written <= |input| && |rd.got| <= c.opts.bufferSize
    ensures Execute(c, input, w, rd, AsWritten).1.Err?
    ensures c.state == Connected && CleanExchange(w, rd) ==>
      Execute(c, input, w, rd, AsWritten) == (c.(state := Connecting), Err(NotReady))
  {
    var (c1, _, sendErr) := Send(c, input, w, AsWritten);
    if sendErr.None? {
      assert c1.state == Connecting;
    }
  }

  /** A concrete case: a freshly opened UDP client with a clean exchange. */
  lemma UdpExchangeAsWritten()
    ensures var c := Open(NewSockClient([SockOptions("udp", "10.0.0.1:6000", 0, 0, false, 0, false, 0, 1024)]),
                          DialOutcome(None, None)).0;
            && c.state == Connected
            && Execute(c, [1, 2], WriteOutcome(None, 2, None), ReadOutcome(None, [3], None), AsWritten).1 == Err(NotReady)
            && Execute(c, [1, 2], WriteOutcome(None, 2, None), ReadOutcome(None, [3], None), Corrected).1 == Ok([3])
  {
  }

  /** A temporary network error leaves a connected client connected, so the
      next execution can succeed; any other error demotes it. */
  lemma ErrorDemotion(c: Client, err: Error, d: Demotion)
    requires c.state == Connected
    ensures CheckSocketState(c, Some(err), d).state == Connected <==>
      err.kind.NetError? && (err.kind.timeout || err.kind.temporary)
  {
  }

  /** After `Close`, nothing can be sent or received until the client is
      opened again. */
  lemma ClosedRefuses(c: Client, closeErr: Option<Error>, input: seq<uint8>, w: WriteOutcome, rd: ReadOutcome, d: Demotion)
    requires w.written <= |input| && |rd.got| <= c.opts.bufferSize
    ensures var closed := Close(c, closeErr).0;
            Execute(closed, input, w, rd, d) == (closed, Err(NotReady))
  {
  }

  /** Only `Open` connects: sending, receiving and executing never move a
      client into `connected`. */
  lemma OnlyOpenConnects(c: Client, input: seq<uint8>, w: WriteOutcome, rd: ReadOutcome, d: Demotion)
    requires c.state != Connected
    requires w.written <= |input| && |rd.got| <= c.opts.bufferSize
    ensures Execute(c, input, w, rd, d).0.state != Connected
  {
  }
}
