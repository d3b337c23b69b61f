/** The socket endpoint programs: they read the target address and client
    options from the configuration, and answer every control message by
    forwarding its body to the socket client. The program of
    `socket/endpoint/main.go` can also broadcast, sending without waiting for
    a response; the one of `socket/socket_endpoint.go` answers the device's
    bytes or an "ERR:" text. */
module SocketEndpoint {
  import opened Wrappers
  import opened Ints
  import opened Strings
  import opened SockClient
  import Messages

  const Separator := "://"

  /** The network and address of a target: "tcp" and the whole target when
      it has no "://"; otherwise the first two pieces of splitting at
      "://", Go's `strings.Split(address, "://")[0]` and `[1]`: the text
      before the first "://", and the text after it up to the next "://"
      or the end. */
  function SplitTarget(target: string): (r: (string, string))
    ensures !Contains(target, Separator) ==> r == ("tcp", target)
    ensures Contains(target, Separator) ==>
      var i := Index(target, Separator).value;
      var rest := target[i + 3..];
      && r.0 == target[..i]
      && r.1 <= rest
      && !Contains(r.1, Separator)
      && (r.1 == rest || OccursAt(rest, Separator, |r.1|))
  {
    match Index(target, Separator)
    case None => ("tcp", target)
    case Some(i) =>
      var after := target[i + 3..];
      match Index(after, Separator)
      case None => (target[..i], after)
      case Some(j) =>
        BeforeFirst(after, j);
        (target[..i], after[..j])
  }

  /** The text before the first "://" contains none. */
  lemma BeforeFirst(s: string, i: nat)
    requires Index(s, Separator) == Some(i)
    ensures !Contains(s[..i], Separator)
  {
    var p := s[..i];
    forall j | 0 <= j
      ensures !OccursAt(p, Separator, j)
    {
      if OccursAt(p, Separator, j) {
        assert s[j..j + 3] == p[j..j + 3];
        assert OccursAt(s, Separator, j);
      }
    }
  }

  /** No occurrence of "://" can straddle the join of a "://"-free text and
      a following "://". */
  lemma FirstSeparator(n: string, a: string)
    requires !Contains(n, Separator)
    ensures Index(n + Separator + a, Separator) == Some(|n|)
  {
    var s := n + Separator + a;
    assert OccursAt(s, Separator, |n|) by {
      assert s[|n|..|n| + 3] == Separator;
    }
    forall j | 0 <= j < |n|
      ensures !OccursAt(s, Separator, j)
    {
      if j + 3 <= |n| {
        assert s[j..j + 3] == n[j..j + 3];
        assert !OccursAt(n, Separator, j);
      } else if j + 2 == |n| {
        assert s[j..j + 3][2] == s[|n|] == ':';
        assert s[j..j + 3][2] != Separator[2];
      } else {
        assert s[j..j + 3][1] == s[|n|] == ':';
        assert s[j..j + 3][1] != Separator[1];
      }
    }
  }

  /** A target written as network "://" address splits back into the two,
      provided neither contains "://" itself. */
  lemma SplitTargetRoundTrip(n: string, a: string)
    requires !Contains(n, Separator) && !Contains(a, Separator)
    ensures SplitTarget(n + Separator + a) == (n, a)
  {
    var s := n + Separator + a;
    FirstSeparator(n, a);
    assert s[..|n|] == n;
    assert s[|n| + 3..] == a;
  }

  /** The pieces never contain the separator. */
  lemma SplitTargetPieces(target: string)
    ensures !Contains(SplitTarget(target).0, Separator)
    ensures SplitTarget(target).0 == "tcp" || |SplitTarget(target).0| < |target|
  {
    match Index(target, Separator)
    case None =>
      forall j | 0 <= j
        ensures !OccursAt("tcp", Separator, j)
      {
        if j == 0 {
          assert "tcp"[0] != Separator[0];
        }
      }
    case Some(i) =>
      BeforeFirst(target, i);
  }

  // ---------------------------------------------------------------------
  // Configuration
  // ---------------------------------------------------------------------

  /** The endpoint's `Broadcast` key and its `SocketClientOptions` table; an
      absent key is `None`. Durations are nanosecond counts. */
  datatype SocketConfig = SocketConfig(
    broadcast: Option<bool>,
    targetAddress: string,
    bufferSize: Option<int>,
    readTimeout: Option<int>,
    writeTimeout: Option<int>,
    autoReconnect: Option<bool>,
    reconnectInterval: Option<int>,
    keepAlive: Option<bool>,
    keepAliveInterval: Option<int>)

  const Second := 1_000_000_000

  /** Whether the endpoint only broadcasts; it does not unless configured
      to. */
  function IsBroadcast(cfg: SocketConfig): (b: bool)
    ensures b <==> cfg.broadcast == Some(true)
  {
    cfg.broadcast.GetOr(false)
  }

  /** The client options built from the configuration, with the defaults of
      the source: a 1024-byte buffer, one-second read and write timeouts,
      automatic reconnection every three seconds and keep-alive every three
      seconds. A negative buffer size wraps as Go's `uint(...)` does. */
  function ClientOptions(cfg: SocketConfig): (o: SockOptions)
    ensures (o.network, o.addr) == SplitTarget(cfg.targetAddress)
    ensures o.bufferSize == ToUint64(cfg.bufferSize.GetOr(1024))
    ensures cfg.bufferSize.None? ==> o.bufferSize == 1024
    ensures cfg.autoReconnect.None? ==> o.autoReconnect
    ensures cfg.keepAlive.None? ==> o.keepAlive
    ensures cfg.readTimeout.None? ==> o.readTimeout == Second
    ensures cfg.writeTimeout.None? ==> o.writeTimeout == Second
    ensures cfg.reconnectInterval.None? ==> o.reconnectInterval == 3 * Second
    ensures cfg.keepAliveInterval.None? ==> o.keepAliveInterval == 3 * Second
  {
    var (network, address) := SplitTarget(cfg.targetAddress);
    SockOptions(
      network, address,
      cfg.readTimeout.GetOr(Second),
      cfg.writeTimeout.GetOr(Second),
      cfg.autoReconnect.GetOr(true),
      cfg.reconnectInterval.GetOr(3 * Second),
      cfg.keepAlive.GetOr(true),
      cfg.keepAliveInterval.GetOr(3 * Second),
      ToUint64(cfg.bufferSize.GetOr(1024)))
  }

  /** A bare host:port target is a TCP client with automatic reconnection by
      default, so opening it answers nil at once whatever the network does. */
  lemma BareTargetOpensLater(cfg: SocketConfig, d: DialOutcome)
    requires !Contains(cfg.targetAddress, Separator) && cfg.autoReconnect.None?
    ensures var c := NewSockClient([ClientOptions(cfg)]);
            c.opts.network == "tcp" && c.opts.addr == cfg.targetAddress && Open(c, d) == (c, None)
  {
  }

  // ---------------------------------------------------------------------
  // Serving
  // ---------------------------------------------------------------------

  /** A reply of the API `socket/endpoint/main.go` uses: the sender name and
      the body. */
  datatype NodeMessage = NodeMessage(name: string, body: seq<uint8>)

  /** What a reply carries: a status text, sent as its UTF-8 bytes, or the
      device's bytes as they are. */
  datatype Answer = Text(text: string) | Raw(bytes: seq<uint8>)

  /** `NewMessageString(name, text)` for a text and `NewMessage(name, bytes)`
      for raw bytes. */
  function Reply(name: string, a: Answer): (m: NodeMessage)
    ensures m.name == name
    ensures a.Text? ==> Messages.Utf8Decode(m.body) == Some(a.text)
    ensures a.Raw? ==> m.body == a.bytes
  {
    match a
    case Text(t) =>
      Messages.DecodeUtf8(t);
      NodeMessage(name, Messages.Utf8(t))
    case Raw(b) => NodeMessage(name, b)
  }

  const ErrPrefix := "EX=ERR:"
  const WriteNotFinished := "EX=ERR:WRITE_NOT_FINISHED"
  const BroadcastOk := "EX=OK:BROADCAST"

  /** An incoming control message: its body and its size. */
  datatype Incoming = Incoming(body: seq<uint8>, size: nat)

  /** The broadcast branch: send only, and report whether the whole message
      went out. The client's state check is `d`: as written, a clean send
      leaves the client `connecting`, so the next message is refused. */
  function Broadcast(c: Client, input: Incoming, w: WriteOutcome, d: Demotion): (r: (Client, Answer))
    requires w.written <= |input.body|
    ensures r.0.opts == c.opts && r.1.Text?
    ensures r.1.text == BroadcastOk <==>
      c.state == Connected && w.deadlineErr.None? && w.writeErr.None? && w.written == input.size
    ensures r.1.text != BroadcastOk ==> HasPrefix(r.1.text, ErrPrefix)
    ensures c.state != Connected ==> r.1 == Text(ErrPrefix + NotReady.text)
    ensures c.state == Connected && w.deadlineErr.Some? ==> r.1 == Text(ErrPrefix + w.deadlineErr.value.text)
    ensures c.state == Connected && w.deadlineErr.None? && w.writeErr.Some? ==>
      r.1 == Text(ErrPrefix + w.writeErr.value.text)
    ensures c.state == Connected && w.deadlineErr.None? && w.writeErr.None? && w.written != input.size ==>
      r.1 == Text(WriteNotFinished)
    ensures c.state == Connected && w.deadlineErr.None? && w.writeErr.None? ==>
      r.0 == (if d == AsWritten then c.(state := Connecting) else c)
  {
    var (c1, n, err) := Send(c, input.body, w, d);
    if err.Some? then
      var t := ErrPrefix + err.value.text;
      assert t[3] != BroadcastOk[3];
      assert t[..7] == ErrPrefix;
      (c1, Text(t))
    else if n != input.size then
      assert WriteNotFinished[3] != BroadcastOk[3];
      (c1, Text(WriteNotFinished))
    else (c1, Text(BroadcastOk))
  }

  /** As written, two broadcasts in a row never both succeed: the first
      successful one leaves the client `connecting`, and the second is
      refused with "EX=ERR:Client connection is not ready". With the
      corrected check, a clean broadcast leaves the client as it was. */
  lemma {:induction false} BroadcastTwice(c: Client, a: Incoming, wa: WriteOutcome, b: Incoming, wb: WriteOutcome)
    requires wa.written <= |a.body| && wb.written <= |b.body|
    requires Broadcast(c, a, wa, AsWritten).1.text == BroadcastOk
    ensures Broadcast(Broadcast(c, a, wa, AsWritten).0, b, wb, AsWritten).1 == Text(ErrPrefix + NotReady.text)
    ensures Broadcast(c, a, wa, Corrected).0 == c
  {
    var c1 := Broadcast(c, a, wa, AsWritten).0;
    assert c1.state == Connecting;
  }

  /** The handler of `socket/endpoint/main.go`. A broadcast endpoint only sends;
      otherwise the client executes and the reply carries the device's
      answer, or the error behind "EX=ERR:". With the state check as written
      (`d == AsWritten`) the client never answers, so every reply is an
      "EX=ERR:" text; the corrected check answers exactly the clean
      exchanges of a connected client. */
  function Serve(broadcast: bool, c: Client, input: Incoming, w: WriteOutcome, rd: ReadOutcome, d: Demotion): (r: (Client, Answer))
    requires w.written <= |input.body| && |rd.got| <= c.opts.bufferSize
    ensures r.0.opts == c.opts
    ensures broadcast ==> r == Broadcast(c, input, w, d)
    ensures !broadcast && d == AsWritten ==> r.1.Text?
    ensures !broadcast && d == Corrected ==> (r.1.Raw? <==> c.state == Connected && CleanExchange(w, rd))
    ensures !broadcast && d == Corrected && c.state == Connected && CleanExchange(w, rd) ==> r == (c, Raw(rd.got))
    ensures !broadcast && r.1.Text? ==> HasPrefix(r.1.text, ErrPrefix)
    ensures !broadcast ==>
      var x := Execute(c, input.body, w, rd, d);
      r == (x.0, if x.1.Ok? then Raw(x.1.value) else Text(ErrPrefix + x.1.error.text))
  {
    if broadcast then Broadcast(c, input, w, d)
    else
      ExecuteSucceeds(c, input.body, w, rd);
      ExecuteFailsAsWritten(c, input.body, w, rd);
      var (c1, res) := Execute(c, input.body, w, rd, d);
      match res
      case Err(e) =>
        assert (ErrPrefix + e.text)[..7] == ErrPrefix;
        (c1, Text(ErrPrefix + e.text))
      case Ok(ret) => (c1, Raw(ret))
  }

  /** As written, a connected client with a clean exchange answers
      "EX=ERR:Client connection is not ready" and is left `connecting`,
      where the corrected client answers the device's bytes. */
  lemma ServeAsWritten(c: Client, input: Incoming, w: WriteOutcome, rd: ReadOutcome)
    requires w.written <= |input.body| && |rd.got| <= c.opts.bufferSize
    requires c.state == Connected && CleanExchange(w, rd)
    ensures Serve(false, c, input, w, rd, AsWritten) == (c.(state := Connecting), Text(ErrPrefix + NotReady.text))
    ensures Serve(false, c, input, w, rd, Corrected) == (c, Raw(rd.got))
  {
    ExecuteFailsAsWritten(c, input.body, w, rd);
  }

  /** An endpoint configured without `Broadcast` executes every message:
      its reply is the device's answer, or the execution error behind
      "EX=ERR:". */
  lemma DefaultExecutes(cfg: SocketConfig, c: Client, input: Incoming, w: WriteOutcome, rd: ReadOutcome, d: Demotion)
    requires cfg.broadcast.None?
    requires w.written <= |input.body| && |rd.got| <= c.opts.bufferSize
    ensures var x := Execute(c, input.body, w, rd, d);
            Serve(IsBroadcast(cfg), c, input, w, rd, d)
            == (x.0, if x.1.Ok? then Raw(x.1.value) else Text(ErrPrefix + x.1.error.text))
  {
  }

  /** The handler of `socket/socket_endpoint.go`, given the client's execution
      result: the device's bytes as they are, or the error behind "ERR:". */
  function LegacyServe(result: Result<seq<uint8>, Error>): (m: Messages.Message)
    ensures result.Ok? ==> m.Bytes() == result.value
    ensures result.Err? ==> Messages.Utf8Decode(m.Bytes()) == Some("ERR:" + result.error.text)
  {
    match result
    case Ok(ret) => Messages.NewMessageBytes(ret)
    case Err(e) =>
      Messages.DecodeUtf8("ERR:" + e.text);
      Messages.NewMessageString("ERR:" + e.text)
  }
}
