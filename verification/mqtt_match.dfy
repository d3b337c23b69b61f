/** Topic-filter matching of MQTT Version 3.1.1: a filter and a topic name are
    compared level by level (levels are separated by '/'); '+' matches exactly
    one level (section 4.7.1.3) and '#', which must be the last level of the
    filter, matches its parent level and any number of further levels
    (section 4.7.1.2). A filter starting with a wildcard does not match a
    topic name starting with '$' (section 4.7.2). */
module MqttMatch {
  import opened Strings

  const MultiLevel := "#"
  const SingleLevel := "+"

  predicate LevelMatches(filterLevel: string, topicLevel: string) {
    filterLevel == SingleLevel || filterLevel == topicLevel
  }

  /** Matching of filter levels against topic levels. */
  function MatchLevels(f: seq<string>, t: seq<string>): bool
    decreases |f|
  {
    if |f| == 0 then |t| == 0
    else if f[0] == MultiLevel then |f| == 1
    else |t| > 0 && LevelMatches(f[0], t[0]) && MatchLevels(f[1..], t[1..])
  }

  /** A broker delivers a message published on `topic` to a subscription on `filter`. */
  predicate Matches(filter: string, topic: string) {
    && !(|topic| > 0 && topic[0] == '$' && |filter| > 0 && (filter[0] == '+' || filter[0] == '#'))
    && MatchLevels(Split(filter, '/'), Split(topic, '/'))
  }

  /** Without '#', a filter matches exactly the topics with as many levels,
      each equal to the filter's level or matched by a '+'. */
  lemma {:induction false} MatchSingleLevels(f: seq<string>, t: seq<string>)
    requires forall i :: 0 <= i < |f| ==> f[i] != MultiLevel
    ensures MatchLevels(f, t) <==> |f| == |t| && forall i :: 0 <= i < |f| ==> LevelMatches(f[i], t[i])
    decreases |f|
  {
    if |f| > 0 && |t| > 0 {
      MatchSingleLevels(f[1..], t[1..]);
      if |f| == |t| && (forall i :: 1 <= i < |f| ==> LevelMatches(f[i], t[i])) {
        assert forall i :: 0 <= i < |f| - 1 ==> LevelMatches(f[1..][i], t[1..][i]);
      }
      if MatchLevels(f[1..], t[1..]) {
        forall i | 1 <= i < |f| ensures LevelMatches(f[i], t[i]) {
          assert f[i] == f[1..][i - 1] && t[i] == t[1..][i - 1];
        }
      }
    }
  }

  /** A filter ending in '#' matches exactly the topics that have at least
      the filter's other levels, each matched as in `MatchSingleLevels`. */
  lemma {:induction false} MatchMultiLevel(p: seq<string>, t: seq<string>)
    requires forall i :: 0 <= i < |p| ==> p[i] != MultiLevel
    ensures MatchLevels(p + [MultiLevel], t) <==> |p| <= |t| && forall i :: 0 <= i < |p| ==> LevelMatches(p[i], t[i])
    decreases |p|
  {
    var f := p + [MultiLevel];
    if |p| > 0 && |t| > 0 {
      assert f[1..] == p[1..] + [MultiLevel];
      MatchMultiLevel(p[1..], t[1..]);
      if |p| <= |t| && (forall i :: 1 <= i < |p| ==> LevelMatches(p[i], t[i])) {
        assert forall i :: 0 <= i < |p| - 1 ==> LevelMatches(p[1..][i], t[1..][i]);
      }
      if MatchLevels(f[1..], t[1..]) {
        forall i | 1 <= i < |p| ensures LevelMatches(p[i], t[i]) {
          assert p[i] == p[1..][i - 1] && t[i] == t[1..][i - 1];
        }
      }
    }
  }
}
