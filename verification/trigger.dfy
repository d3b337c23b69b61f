/** A trigger: a node that publishes events to the broker under the topic
    fixed when it starts up, each event framed with a fresh sequence id.
    The broker client and the frame codec are not part of this model: the
    outcome of a publish is an input and a framed message is its record of
    header fields and body. */
module Trigger {
  import opened Wrappers
  import opened Ints
  import opened Sequence
  import opened Endpoint

  datatype TriggerState = TriggerState(
    nodeName: string,
    mqttTopic: string,
    sequenceId: uint32,
    qos: uint8,
    retained: bool)

  /** One publish request: topic, QoS, retained flag and message. */
  datatype Publication = Publication(topic: string, qos: uint8, retained: bool, message: FramedMessage)

  /** What the publish token reports: whether `Wait` completed, and its error. */
  datatype PublishOutcome = PublishOutcome(completed: bool, error: Option<string>)

  const SendEventFailed := "发送事件消息出错"

  /** `errors.WithMessage(err, msg)` as its text reads. */
  function WithMessage(err: string, msg: string): string {
    msg + ": " + err
  }

  /** `NextSequenceId`: stores and returns the next id. */
  function NextSequenceId(t: TriggerState): (r: (TriggerState, uint32))
    ensures r.1 < MaxUint32
    ensures r.0 == t.(sequenceId := r.1)
    ensures r.1 == Advance(t.sequenceId, 1)
  {
    var id := Next(t.sequenceId);
    (t.(sequenceId := id), id)
  }

  /** `NextMessage`: a data message from this node with a freshly issued id. */
  function NextMessage(t: TriggerState, virtualNodeId: string, body: seq<uint8>): (r: (TriggerState, FramedMessage))
    ensures r.0 == t.(sequenceId := Advance(t.sequenceId, 1))
    ensures r.1 == FramedMessage(t.nodeName, virtualNodeId, Data, r.0.sequenceId, body)
  {
    var (t1, id) := NextSequenceId(t);
    (t1, FramedMessage(t.nodeName, virtualNodeId, Data, id, body))
  }

  /** `SendEventMessage`: publishes one event; the error, if the publish
      reports one, comes back wrapped. */
  function SendEventMessage(t: TriggerState, virtualNodeId: string, data: seq<uint8>, outcome: PublishOutcome)
    : (r: (TriggerState, Publication, Option<string>))
    ensures r.0 == t.(sequenceId := Advance(t.sequenceId, 1))
    ensures r.1.topic == t.mqttTopic && r.1.qos == t.qos && r.1.retained == t.retained
    ensures r.1.message == FramedMessage(t.nodeName, virtualNodeId, Data, r.0.sequenceId, data)
    ensures r.2.Some? <==> outcome.completed && outcome.error.Some?
    ensures r.2.Some? ==> r.2.value == SendEventFailed + ": " + outcome.error.value
  {
    var (t1, msg) := NextMessage(t, virtualNodeId, data);
    var pub := Publication(t.mqttTopic, t.qos, t.retained, msg);
    if outcome.completed && outcome.error.Some? then (t1, pub, Some(WithMessage(outcome.error.value, SendEventFailed)))
    else (t1, pub, None)
  }

  /** One event to send: virtual node, body and what the publish reports. */
  datatype Event = Event(virtualNodeId: string, data: seq<uint8>, outcome: PublishOutcome)

  function SendAll(t: TriggerState, events: seq<Event>): (r: (TriggerState, seq<Publication>))
    ensures |r.1| == |events|
    decreases |events|
  {
    if |events| == 0 then (t, [])
    else
      var (t1, pub, _) := SendEventMessage(t, events[0].virtualNodeId, events[0].data, events[0].outcome);
      var (t2, pubs) := SendAll(t1, events[1..]);
      (t2, [pub] + pubs)
  }

  /** Sending events one after another, failed or not, numbers them with
      successive ids; fewer than `MaxUint32` of them never share an id. */
  lemma {:induction false} SendAllNumbers(t: TriggerState, events: seq<Event>)
    ensures SendAll(t, events).0 == t.(sequenceId := Advance(t.sequenceId, |events|))
    ensures forall i :: 0 <= i < |events| ==> SendAll(t, events).1[i].message.seqId == Advance(t.sequenceId, i + 1)
    ensures forall i :: 0 <= i < |events| ==> SendAll(t, events).1[i].topic == t.mqttTopic
    decreases |events|
  {
    if |events| > 0 {
      var (t1, pub, _) := SendEventMessage(t, events[0].virtualNodeId, events[0].data, events[0].outcome);
      SendAllNumbers(t1, events[1..]);
      var pubs := SendAll(t, events).1;
      forall i | 1 <= i < |events| ensures pubs[i].message.seqId == Advance(t.sequenceId, i + 1) {
        AdvanceNext(t.sequenceId, i);
      }
      AdvanceNext(t.sequenceId, |events| - 1);
    }
  }

  lemma SendAllDistinctIds(t: TriggerState, events: seq<Event>, i: nat, j: nat)
    requires t.sequenceId < MaxUint32 && i < j < |events| && |events| < MaxUint32
    ensures SendAll(t, events).1[i].message.seqId != SendAll(t, events).1[j].message.seqId
  {
    SendAllNumbers(t, events);
    IdsDistinct(t.sequenceId, i + 1, j + 1);
  }
}
