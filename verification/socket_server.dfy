/** The socket server trigger: an event-loop server whose every received
    packet is published by the trigger and acknowledged with "OK\r\n". */
module SocketServer {
  import opened Wrappers
  import opened Ints
  import opened Strings

  /** The event loop's load-balancing policies; `Random` is the zero value. */
  datatype LoadBalance = Random | RoundRobin | LeastConnections

  datatype ServerEvents = ServerEvents(numLoops: int, loadBalance: LoadBalance)

  /** The policy named by a lower-cased configuration text; anything else is
      `Random`. */
  function ParseLoadBalance(lb: string): (r: LoadBalance)
    ensures r == RoundRobin <==> ToLower(lb) == "roundrobin"
    ensures r == LeastConnections <==> ToLower(lb) == "leastconnections"
  {
    var l := ToLower(lb);
    if l == "random" then Random
    else if l == "roundrobin" then RoundRobin
    else if l == "leastconnections" then LeastConnections
    else Random
  }

  /** The server settings: `numLoops` defaults to 1, and a policy is read
      only when there is more than one loop. */
  function ServerSettings(numLoops: Option<int>, loadBalance: string): (e: ServerEvents)
    ensures e.numLoops == numLoops.GetOr(1)
    ensures numLoops.None? ==> e.numLoops == 1 && e.loadBalance == Random
    ensures e.loadBalance != Random ==> e.numLoops > 1
    ensures e.numLoops > 1 ==> e.loadBalance == ParseLoadBalance(loadBalance)
  {
    var n := numLoops.GetOr(1);
    ServerEvents(n, if n > 1 then ParseLoadBalance(loadBalance) else Random)
  }

  /** The acknowledgement written back for every packet. */
  const Ack: seq<uint8> := ['O' as int, 'K' as int, '\r' as int, '\n' as int]

  /** What the `Data` callback does with one packet: the packet published
      and the bytes written back. Whether publishing failed only goes to the
      log. */
  datatype DataResult = DataResult(published: seq<uint8>, reply: seq<uint8>)

  function OnData(input: seq<uint8>, triggerErr: Option<string>): (r: DataResult)
    ensures r.published == input
    ensures r.reply == Ack
  {
    DataResult(input, Ack)
  }

  /** The acknowledgement says nothing about the packet or the publication:
      two calls answer alike. */
  lemma AckIndependent(a: seq<uint8>, ea: Option<string>, b: seq<uint8>, eb: Option<string>)
    ensures OnData(a, ea).reply == OnData(b, eb).reply
    ensures OnData(a, ea).published == OnData(b, eb).published <==> a == b
  {
  }

  /** Any letter case of the policy names is recognised; other spellings
      are not. */
  lemma PolicyNames()
    ensures ParseLoadBalance("RoundRobin") == RoundRobin
    ensures ParseLoadBalance("LeastConnections") == LeastConnections
    ensures ParseLoadBalance("round-robin") == Random
  {
    assert ToLower("RoundRobin") == "roundrobin";
    assert ToLower("LeastConnections") == "leastconnections";
  }
}
