/** The broker topic scheme: every topic lives under the `$EdgeX` root, one
    sub-namespace per channel. Request and reply topics carry the executor,
    the sequence id and the caller as separate levels so that the listening
    side can subscribe with '+' wildcards. */
module Topics {
  import opened Wrappers
  import opened Ints
  import opened Strings
  import opened Decimal
  import opened MqttMatch
  import opened NameCheck

  const TopicNodesInspect := "$EdgeX/nodes/inspect"
  const TopicNodesOffline := "$EdgeX/nodes/offline/#"
  const TopicNodesEvents := "$EdgeX/events/#"
  const TopicNodesValues := "$EdgeX/values/#"

  datatype TopicError = LeadingSlash(topic: string)

  /** `checkTopic`: a user topic must not start with '/'. */
  function CheckTopic(topic: string): (r: Outcome<TopicError>)
    ensures r.Fail? <==> |topic| > 0 && topic[0] == '/'
  {
    if HasPrefix(topic, "/") then Fail(LeadingSlash(topic)) else Pass
  }

  /** A topic from its levels: the source's format strings put '/' between
      the substituted values. */
  function Topic(levels: seq<string>): string
    requires |levels| >= 1
  {
    Join(levels, '/')
  }

  function TopicOfEvents(topic: string): (r: Result<string, TopicError>)
    ensures r.Err? <==> CheckTopic(topic).Fail?
  {
    if CheckTopic(topic).Fail? then Err(LeadingSlash(topic)) else Ok(Topic(["$EdgeX", "events", topic]))
  }

  function TopicOfValues(topic: string): (r: Result<string, TopicError>)
    ensures r.Err? <==> CheckTopic(topic).Fail?
  {
    if CheckTopic(topic).Fail? then Err(LeadingSlash(topic)) else Ok(Topic(["$EdgeX", "values", topic]))
  }

  function TopicOfRequestSend(executorNodeId: string, seqId: uint32, callerNodeId: string): string {
    Topic(["$EdgeX", "requests", executorNodeId, FormatNat(seqId), callerNodeId])
  }

  function TopicOfRequestListen(nodeId: string): string {
    Topic(["$EdgeX", "requests", nodeId, SingleLevel, SingleLevel])
  }

  /** Note the order: the caller's level comes first, the executor's last. */
  function TopicOfRepliesSend(executorNodeId: string, seqId: uint32, callerNodeId: string): string {
    Topic(["$EdgeX", "replies", callerNodeId, FormatNat(seqId), executorNodeId])
  }

  function TopicOfRepliesFilter(executorNodeId: string, seqId: uint32, callerNodeId: string): (r: string)
    ensures r == TopicOfRepliesSend(executorNodeId, seqId, callerNodeId)
  {
    TopicOfRepliesSend(executorNodeId, seqId, callerNodeId)
  }

  function TopicOfRepliesListen(callerNodeId: string): string {
    Topic(["$EdgeX", "replies", callerNodeId, SingleLevel, SingleLevel])
  }

  function TopicOfOffline(typeName: string, name: string): string {
    Topic(["$EdgeX", "nodes", "offline", typeName, name])
  }

  // ---------------------------------------------------------------------
  // Levels of the built topics
  // ---------------------------------------------------------------------

  lemma RequestSpelling(e: string, s: uint32, c: string)
    ensures TopicOfRequestSend(e, s, c) == "$EdgeX/requests/" + e + "/" + FormatNat(s) + "/" + c
    ensures TopicOfRequestListen(e) == "$EdgeX/requests/" + e + "/+/+"
  {
    JoinFive("$EdgeX", "requests", e, FormatNat(s), c, '/');
    JoinFive("$EdgeX", "requests", e, "+", "+", '/');
  }

  lemma RepliesSpelling(e: string, s: uint32, c: string)
    ensures TopicOfRepliesSend(e, s, c) == "$EdgeX/replies/" + c + "/" + FormatNat(s) + "/" + e
    ensures TopicOfRepliesListen(c) == "$EdgeX/replies/" + c + "/+/+"
  {
    JoinFive("$EdgeX", "replies", c, FormatNat(s), e, '/');
    JoinFive("$EdgeX", "replies", c, "+", "+", '/');
  }

  lemma ChannelSpelling(t: string, n: string)
    ensures TopicOfOffline(t, n) == "$EdgeX/nodes/offline/" + t + "/" + n
    ensures TopicOfEvents(t).Ok? ==> TopicOfEvents(t).value == "$EdgeX/events/" + t
    ensures TopicOfValues(t).Ok? ==> TopicOfValues(t).value == "$EdgeX/values/" + t
  {
    JoinFive("$EdgeX", "nodes", "offline", t, n, '/');
    JoinThree("$EdgeX", "events", t, '/');
    JoinThree("$EdgeX", "values", t, '/');
  }

  lemma FilterSpelling()
    ensures TopicNodesOffline == Topic(["$EdgeX", "nodes", "offline", MultiLevel])
    ensures TopicNodesEvents == Topic(["$EdgeX", "events", MultiLevel])
    ensures TopicNodesValues == Topic(["$EdgeX", "values", MultiLevel])
  {
    JoinFour("$EdgeX", "nodes", "offline", "#", '/');
    JoinThree("$EdgeX", "events", "#", '/');
    JoinThree("$EdgeX", "values", "#", '/');
  }

  /** Every builder produces exactly the string of the source's format. */
  lemma TopicSpelling(e: string, s: uint32, c: string, t: string, n: string)
    ensures TopicOfRequestSend(e, s, c) == "$EdgeX/requests/" + e + "/" + FormatNat(s) + "/" + c
    ensures TopicOfRequestListen(e) == "$EdgeX/requests/" + e + "/+/+"
    ensures TopicOfRepliesSend(e, s, c) == "$EdgeX/replies/" + c + "/" + FormatNat(s) + "/" + e
    ensures TopicOfRepliesListen(c) == "$EdgeX/replies/" + c + "/+/+"
    ensures TopicOfOffline(t, n) == "$EdgeX/nodes/offline/" + t + "/" + n
    ensures TopicOfEvents(t).Ok? ==> TopicOfEvents(t).value == "$EdgeX/events/" + t
    ensures TopicOfValues(t).Ok? ==> TopicOfValues(t).value == "$EdgeX/values/" + t
  {
    RequestSpelling(e, s, c);
    RepliesSpelling(e, s, c);
    ChannelSpelling(t, n);
  }

  lemma TopicHead(levels: seq<string>)
    requires |levels| >= 1 && |levels[0]| >= 1
    ensures |Topic(levels)| >= 1 && Topic(levels)[0] == levels[0][0]
  {
  }

  lemma DigitsHaveNoSlash(s: string)
    requires AllDigits(s)
    ensures '/' !in s && '+' !in s && '#' !in s
  {
    assert forall i :: 0 <= i < |s| ==> s[i] != '/' && s[i] != '+' && s[i] != '#';
  }

  /** A request topic has the levels root, "requests", executor, decimal
      sequence id, caller. */
  lemma RequestSendLevels(executorNodeId: string, seqId: uint32, callerNodeId: string)
    requires '/' !in executorNodeId && '/' !in callerNodeId
    ensures Split(TopicOfRequestSend(executorNodeId, seqId, callerNodeId), '/')
         == ["$EdgeX", "requests", executorNodeId, FormatNat(seqId), callerNodeId]
  {
    DigitsHaveNoSlash(FormatNat(seqId));
    SplitJoin(["$EdgeX", "requests", executorNodeId, FormatNat(seqId), callerNodeId], '/');
  }

  /** A reply topic has the levels root, "replies", caller, decimal sequence
      id, executor. */
  lemma RepliesSendLevels(executorNodeId: string, seqId: uint32, callerNodeId: string)
    requires '/' !in executorNodeId && '/' !in callerNodeId
    ensures Split(TopicOfRepliesSend(executorNodeId, seqId, callerNodeId), '/')
         == ["$EdgeX", "replies", callerNodeId, FormatNat(seqId), executorNodeId]
  {
    DigitsHaveNoSlash(FormatNat(seqId));
    SplitJoin(["$EdgeX", "replies", callerNodeId, FormatNat(seqId), executorNodeId], '/');
  }

  /** A filter built from '/'-free levels under the `$EdgeX` root matches a
      topic exactly when its levels match the topic's levels. */
  lemma MatchTopic(f: seq<string>, topic: string)
    requires |f| >= 1 && |f[0]| >= 1 && f[0][0] == '$'
    requires forall i :: 0 <= i < |f| ==> '/' !in f[i]
    ensures Matches(Topic(f), topic) <==> MatchLevels(f, Split(topic, '/'))
  {
    SplitJoin(f, '/');
    TopicHead(f);
  }

  /** The request subscription of node `nodeId` receives a request exactly
      when the request is addressed to `nodeId`, or when `nodeId` is itself
      the single-level wildcard; the sequence id and the caller may be anything. */
  lemma RequestRouting(nodeId: string, executorNodeId: string, seqId: uint32, callerNodeId: string)
    requires '/' !in nodeId && nodeId != MultiLevel
    requires '/' !in executorNodeId && '/' !in callerNodeId
    ensures Matches(TopicOfRequestListen(nodeId), TopicOfRequestSend(executorNodeId, seqId, callerNodeId))
        <==> nodeId == executorNodeId || nodeId == SingleLevel
  {
    var f := ["$EdgeX", "requests", nodeId, SingleLevel, SingleLevel];
    var t := ["$EdgeX", "requests", executorNodeId, FormatNat(seqId), callerNodeId];
    MatchTopic(f, TopicOfRequestSend(executorNodeId, seqId, callerNodeId));
    RequestSendLevels(executorNodeId, seqId, callerNodeId);
    MatchSingleLevels(f, t);
    assert LevelMatches(f[0], t[0]) && LevelMatches(f[1], t[1]);
    assert LevelMatches(f[3], t[3]) && LevelMatches(f[4], t[4]);
    assert TopicOfRequestListen(nodeId) == Topic(f);
    assert Matches(Topic(f), TopicOfRequestSend(executorNodeId, seqId, callerNodeId)) <==> MatchLevels(f, t);
    assert MatchLevels(f, t) <==> LevelMatches(f[2], t[2]);
  }

  /** The reply subscription of `listener` receives a reply exactly when the
      reply is addressed to `listener` as caller, from any executor, or when
      `listener` is itself the single-level wildcard. */
  lemma RepliesRouting(listener: string, executorNodeId: string, seqId: uint32, callerNodeId: string)
    requires '/' !in listener && listener != MultiLevel
    requires '/' !in executorNodeId && '/' !in callerNodeId
    ensures Matches(TopicOfRepliesListen(listener), TopicOfRepliesSend(executorNodeId, seqId, callerNodeId))
        <==> listener == callerNodeId || listener == SingleLevel
  {
    var f := ["$EdgeX", "replies", listener, SingleLevel, SingleLevel];
    var t := ["$EdgeX", "replies", callerNodeId, FormatNat(seqId), executorNodeId];
    MatchTopic(f, TopicOfRepliesSend(executorNodeId, seqId, callerNodeId));
    RepliesSendLevels(executorNodeId, seqId, callerNodeId);
    MatchSingleLevels(f, t);
    assert LevelMatches(f[0], t[0]) && LevelMatches(f[1], t[1]);
    assert LevelMatches(f[3], t[3]) && LevelMatches(f[4], t[4]);
    assert TopicOfRepliesListen(listener) == Topic(f);
    assert Matches(Topic(f), TopicOfRepliesSend(executorNodeId, seqId, callerNodeId)) <==> MatchLevels(f, t);
    assert MatchLevels(f, t) <==> LevelMatches(f[2], t[2]);
  }

  /** With names accepted by the strict check, a node's request subscription
      receives exactly the requests addressed to it. */
  lemma RequestIsolation(nodeId: string, executorNodeId: string, seqId: uint32, callerNodeId: string)
    requires CheckNameFormatStrict(nodeId).Ok? && CheckNameFormatStrict(executorNodeId).Ok?
    requires '/' !in callerNodeId
    ensures Matches(TopicOfRequestListen(nodeId), TopicOfRequestSend(executorNodeId, seqId, callerNodeId))
        <==> nodeId == executorNodeId
  {
    assert nodeId != SingleLevel by { assert '+' in SingleLevel; }
    assert nodeId != MultiLevel by { assert '#' in MultiLevel; }
    RequestRouting(nodeId, executorNodeId, seqId, callerNodeId);
  }

  /** With names accepted by the strict check, a caller's reply subscription
      receives exactly the replies addressed to it. */
  lemma RepliesIsolation(listener: string, executorNodeId: string, seqId: uint32, callerNodeId: string)
    requires CheckNameFormatStrict(listener).Ok? && CheckNameFormatStrict(callerNodeId).Ok?
    requires '/' !in executorNodeId
    ensures Matches(TopicOfRepliesListen(listener), TopicOfRepliesSend(executorNodeId, seqId, callerNodeId))
        <==> listener == callerNodeId
  {
    assert listener != SingleLevel by { assert '+' in SingleLevel; }
    assert listener != MultiLevel by { assert '#' in MultiLevel; }
    RepliesRouting(listener, executorNodeId, seqId, callerNodeId);
  }

  /** `checkNameFormat` accepts the name "+", and the request subscription of
      a node so named receives requests addressed to another node. */
  lemma WildcardNameListensToOthers()
    ensures CheckNameFormat("+").Ok?
    ensures Matches(TopicOfRequestListen("+"), TopicOfRequestSend("door", 7, "app"))
  {
    RequestRouting("+", "door", 7, "app");
  }

  /** Every offline topic, whatever its role type and node name, is received
      by the offline subscription. */
  lemma OfflineMatched(typeName: string, name: string)
    ensures Matches(TopicNodesOffline, TopicOfOffline(typeName, name))
  {
    var p := ["$EdgeX", "nodes", "offline"];
    FilterSpelling();
    assert p + [MultiLevel] == ["$EdgeX", "nodes", "offline", MultiLevel];
    assert p + [typeName, name] == ["$EdgeX", "nodes", "offline", typeName, name];
    PrefixMatched(p, [typeName, name]);
  }

  /** Every event topic the builder produces is received by the all-events
      subscription, and every value topic by the all-values subscription. */
  lemma EventsAndValuesMatched(topic: string)
    ensures TopicOfEvents(topic).Ok? ==> Matches(TopicNodesEvents, TopicOfEvents(topic).value)
    ensures TopicOfValues(topic).Ok? ==> Matches(TopicNodesValues, TopicOfValues(topic).value)
  {
    FilterSpelling();
    ChannelMatched("events", topic);
    ChannelMatched("values", topic);
  }

  lemma ChannelMatched(channel: string, topic: string)
    requires channel == "events" || channel == "values"
    ensures Matches(Topic(["$EdgeX", channel, MultiLevel]), Topic(["$EdgeX", channel, topic]))
  {
    var p := ["$EdgeX", channel];
    assert p + [MultiLevel] == ["$EdgeX", channel, MultiLevel];
    assert p + [topic] == ["$EdgeX", channel, topic];
    PrefixMatched(p, [topic]);
  }

  /** A filter of fixed levels followed by '#' matches every topic that
      starts with those levels, whatever the remaining parts contain. */
  lemma PrefixMatched(p: seq<string>, rest: seq<string>)
    requires |p| >= 1 && |p[0]| >= 1 && p[0][0] == '$' && |rest| >= 1
    requires forall i :: 0 <= i < |p| ==> '/' !in p[i] && p[i] != MultiLevel
    ensures Matches(Topic(p + [MultiLevel]), Topic(p + rest))
  {
    var f := p + [MultiLevel];
    assert forall i :: 0 <= i < |f| ==> '/' !in f[i] by {
      assert forall i :: 0 <= i < |p| ==> f[i] == p[i];
    }
    MatchTopic(f, Topic(p + rest));
    SplitJoinAll(p + rest, '/');
    SplitAllPrefix(p, rest, '/');
    var t := p + SplitAll(rest, '/');
    assert forall i :: 0 <= i < |p| ==> t[i] == p[i];
    MatchMultiLevel(p, t);
  }
}
