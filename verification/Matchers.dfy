/**
 The four topic matchers of the broker, each against the rule of section 4.7 of MQTT 5.0.
 */
module Matchers {
  import opened Topics

  /** Levels still to be read at offset i; none once i has passed the end. */
  ghost function Rest(s: string, i: nat): seq<string> {
    if i <= |s| then Levels(s[i..]) else []
  }

  /** Reading one level from offset i ends at e, the next '/' or the end. */
  lemma RestStep(s: string, i: nat, e: nat)
    requires i <= e <= |s|
    requires forall j :: i <= j < e ==> s[j] != '/'
    requires e < |s| ==> s[e] == '/'
    ensures Rest(s, i) == [s[i..e]] + Rest(s, e + 1)
  {
    var u := s[i..];
    assert u == s[i..e] + s[e..];
    FirstSlashAt(s[i..e], s[e..]);
    assert FirstSlash(u) == e - i;
    assert u[..e - i] == s[i..e];
    if e < |s| {
      assert u[e - i + 1..] == s[e + 1..];
    } else {
      assert u == s[i..e];
    }
  }

  /** A first-character test of the filter decides the '$' rule, since a longer level starting with a wildcard is literal. */
  lemma DollarByFirstChar(filter: string, topic: string)
    requires HasPrefixChar(topic, '$') && (HasPrefixChar(filter, '+') || HasPrefixChar(filter, '#'))
    ensures !Matches(filter, topic)
  {
    var f, t := Levels(filter)[0], Levels(topic)[0];
    assert t[0] == '$' && f[0] != '$';
    assert f != t;
  }

  lemma SameStringMatches(s: string)
    ensures LevelsMatch(Levels(s), Levels(s))
  {
    ScanSame(Levels(s));
    ScanIsLevelsMatch(Levels(s), Levels(s));
  }

  /** The broker's own matcher: one pass over both strings with two offsets. */
  method MatchMqttTopic(pattern: string, topic: string) returns (r: bool)
    ensures r <==> Matches(pattern, topic)
  {
    if |topic| > 0 && topic[0] == '$' && |pattern| > 0 && (pattern[0] == '+' || pattern[0] == '#') {
      DollarByFirstChar(pattern, topic);
      return false;
    }
    if pattern == "#" || pattern == topic {
      SameStringMatches(pattern);
      return true;
    }
    ScanIsLevelsMatch(Levels(pattern), Levels(topic));
    r := MatchLevelByLevel(pattern, topic);
  }

  lemma ScanCons(a: string, f: seq<string>, b: string, t: seq<string>)
    ensures ScanMatch([a] + f, [b] + t) <==> a == "#" || (LevelMatches(a, b) && ScanMatch(f, t))
    ensures ScanMatch([a] + f, []) <==> a == "#"
  {
    assert ([a] + f)[1..] == f && ([b] + t)[1..] == t;
  }

  lemma HashScans(f: seq<string>, t: seq<string>)
    ensures ScanMatch(["#"] + f, t)
  {
  }

  /** The loop of the matcher. */
  method MatchLevelByLevel(pattern: string, topic: string) returns (r: bool)
    ensures r <==> ScanMatch(Levels(pattern), Levels(topic))
  {
    assert pattern[0..] == pattern && topic[0..] == topic;
    var pi, ti := 0, 0;
    while pi <= |pattern|
      invariant ScanMatch(Levels(pattern), Levels(topic)) <==> ScanMatch(Rest(pattern, pi), Rest(topic, ti))
      decreases |pattern| + 1 - pi
    {
      var ps := pi;
      pi := SegmentEnd(pattern, pi);
      var pseg := pattern[ps..pi];
      RestStep(pattern, ps, pi);
      if pseg == "#" {
        HashScans(Rest(pattern, pi + 1), Rest(topic, ti));
        return true;
      }
      if ti > |topic| {
        ScanCons(pseg, Rest(pattern, pi + 1), "", []);
        return false;
      }
      var ts := ti;
      ti := SegmentEnd(topic, ti);
      var tseg := topic[ts..ti];
      RestStep(topic, ts, ti);
      ScanCons(pseg, Rest(pattern, pi + 1), tseg, Rest(topic, ti + 1));
      if pseg != "+" && pseg != tseg {
        return false;
      }
      pi := pi + 1;
      ti := ti + 1;
    }
    return ti > |topic|;
  }

  /** The inner loop: from offset i to the next '/' or the end. */
  method SegmentEnd(s: string, i: nat) returns (e: nat)
    requires i <= |s|
    ensures i <= e <= |s|
    ensures forall j :: i <= j < e ==> s[j] != '/'
    ensures e < |s| ==> s[e] == '/'
  {
    e := i;
    while e < |s| && s[e] != '/'
      invariant i <= e <= |s|
      invariant forall j :: i <= j < e ==> s[j] != '/'
    {
      e := e + 1;
    }
  }

  /** The topic's levels are used up exactly where the filter's `#` begins. */
  ghost predicate HashLeftOver(pattern: string, topic: string) {
    var h := HashAt(Levels(pattern));
    h < |Levels(pattern)| && h == |Levels(topic)|
  }

  /** ScanMatch without the parent level: `#` needs at least one level of the topic. */
  predicate ScanChild(f: seq<string>, t: seq<string>) {
    if f == [] then t == []
    else if f[0] == "#" then t != []
    else t != [] && LevelMatches(f[0], t[0]) && ScanChild(f[1..], t[1..])
  }

  lemma {:induction false} ScanChildIs(f: seq<string>, t: seq<string>)
    ensures ScanChild(f, t) <==> ScanMatch(f, t) && !(HashAt(f) < |f| && HashAt(f) == |t|)
  {
    if f != [] && f[0] != "#" && t != [] {
      ScanChildIs(f[1..], t[1..]);
    }
  }

  /**
   The archive's matcher follows section 4.7 except that "a/#" does not match the parent "a".
   It shortens both strings level by level.
   */
  method ArchiveMatchTopic(pattern: string, topic: string) returns (r: bool)
    ensures r <==> Matches(pattern, topic) && !HashLeftOver(pattern, topic)
  {
    if HasPrefixChar(topic, '$') && (HasPrefixChar(pattern, '#') || HasPrefixChar(pattern, '+')) {
      DollarByFirstChar(pattern, topic);
      return false;
    }
    if pattern == "#" {
      return true;
    }
    ScanIsLevelsMatch(Levels(pattern), Levels(topic));
    ScanChildIs(Levels(pattern), Levels(topic));
    r := ArchiveLevelByLevel(pattern, topic);
  }

  /** The loop of the archive's matcher. */
  method ArchiveLevelByLevel(pattern0: string, topic0: string) returns (r: bool)
    ensures r <==> ScanChild(Levels(pattern0), Levels(topic0))
  {
    var pattern, topic := pattern0, topic0;
    while true
      invariant ScanChild(Levels(pattern0), Levels(topic0)) <==> ScanChild(Levels(pattern), Levels(topic))
      decreases |pattern|
    {
      var pSlash := FirstSlash(pattern);
      var pSeg := pattern[..pSlash];
      if pSeg == "#" {
        return true;
      }
      var tSlash := FirstSlash(topic);
      var tSeg := topic[..tSlash];
      if pSeg != "+" && pSeg != tSeg {
        return false;
      }
      if pSlash == |pattern| || tSlash == |topic| {
        return pSlash == |pattern| && tSlash == |topic|;
      }
      assert Levels(pattern)[1..] == Levels(pattern[pSlash + 1..]);
      assert Levels(topic)[1..] == Levels(topic[tSlash + 1..]);
      pattern, topic := pattern[pSlash + 1..], topic[tSlash + 1..];
    }
  }

  /** The loop of the NATS matcher from level i on. */
  predicate NatsScan(topic: seq<string>, filter: seq<string>, i: nat)
    requires i <= |filter|
    decreases |filter| - i
  {
    if i == |filter| then |topic| == |filter|
    else if filter[i] == "#" then true
    else if i >= |topic| then false
    else (filter[i] == "+" || filter[i] == topic[i]) && NatsScan(topic, filter, i + 1)
  }

  predicate NatsTopicMatchesFilter(topic: string, filter: string) {
    filter == "#" || NatsScan(Levels(topic), Levels(filter), 0)
  }

  predicate NatsDollarTopicMatches(topic: string, filters: seq<string>) {
    if !HasPrefixChar(topic, '$') then true
    else exists i :: 0 <= i < |filters| && !HasPrefixChar(filters[i], '#') && !HasPrefixChar(filters[i], '+')
  }

  lemma {:induction false} NatsScanIs(topic: seq<string>, filter: seq<string>, i: nat)
    requires i <= |filter| && i <= |topic|
    ensures NatsScan(topic, filter, i) <==> ScanMatch(filter[i..], topic[i..])
    decreases |filter| - i
  {
    if i < |filter| && i < |topic| {
      NatsScanIs(topic, filter, i + 1);
      assert filter[i..][1..] == filter[i + 1..] && topic[i..][1..] == topic[i + 1..];
    }
  }

  /**
   A NATS subscription delivers by both tests, and those are section 4.7. The level test
   alone accepts in addition exactly the topics the '$' rule blocks.
   */
  lemma NatsAgrees(topic: string, filter: string)
    ensures NatsTopicMatchesFilter(topic, filter) && NatsDollarTopicMatches(topic, [filter]) <==> Matches(filter, topic)
    ensures NatsTopicMatchesFilter(topic, filter) <==>
              Matches(filter, topic) || (LevelsMatch(Levels(filter), Levels(topic)) && DollarBlocked(filter, topic))
  {
    var f, t := Levels(filter), Levels(topic);
    NatsScanIs(t, f, 0);
    assert f[0..] == f && t[0..] == t;
    ScanIsLevelsMatch(f, t);
    assert [filter][0] == filter;
    if HasPrefixChar(topic, '$') && (HasPrefixChar(filter, '+') || HasPrefixChar(filter, '#')) {
      DollarByFirstChar(filter, topic);
    }
  }
}
