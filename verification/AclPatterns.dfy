/**
 ACL patterns: when a pattern covers a topic or a whole subscription filter.
 */
module AclPatterns {
  import opened Topics

  /** The level loop of the ACL matcher from level i on. */
  predicate CoverScan(pp: seq<string>, tt: seq<string>, i: nat)
    requires i <= |pp|
    decreases |pp| - i
  {
    if i == |pp| then |pp| == |tt|
    else if pp[i] == "#" then true
    else if i >= |tt| then false
    else if pp[i] == "+" then tt[i] != "#" && CoverScan(pp, tt, i + 1)
    else pp[i] == tt[i] && CoverScan(pp, tt, i + 1)
  }

  /** topicMatches: the pattern covers topic, which is a concrete topic or a filter. */
  predicate TopicMatches(pattern: string, topic: string) {
    var pp, tt := Levels(pattern), Levels(topic);
    if HasPrefixChar(tt[0], '$') && !HasPrefixChar(pp[0], '$') && (pp[0] == "+" || pp[0] == "#") then false
    else CoverScan(pp, tt, 0)
  }

  /** What the loop accepts, without the loop. */
  predicate CoverForm(pp: seq<string>, tt: seq<string>) {
    var h := HashAt(pp);
    && (if h < |pp| then h <= |tt| else |pp| == |tt|)
    && forall i :: 0 <= i < h ==> tt[i] != "#" && LevelMatches(pp[i], tt[i])
  }

  lemma {:induction false} CoverScanIs(pp: seq<string>, tt: seq<string>, i: nat)
    requires i <= |pp| && i <= |tt| && i <= HashAt(pp)
    requires forall j :: 0 <= j < i ==> tt[j] != "#" && LevelMatches(pp[j], tt[j])
    ensures CoverScan(pp, tt, i) <==> CoverForm(pp, tt)
    decreases |pp| - i
  {
    if i < HashAt(pp) && i < |tt| && tt[i] != "#" && LevelMatches(pp[i], tt[i]) {
      CoverScanIs(pp, tt, i + 1);
    }
  }

  lemma TopicMatchesIs(pattern: string, topic: string)
    ensures TopicMatches(pattern, topic) <==> CoverForm(Levels(pattern), Levels(topic)) && !DollarBlocked(pattern, topic)
  {
    CoverScanIs(Levels(pattern), Levels(topic), 0);
    FirstLevelPrefix(topic, '$');
  }

  /** On a concrete topic the ACL matcher is section 4.7. */
  lemma AclMatcherAgrees(pattern: string, topic: string)
    requires Concrete(topic)
    ensures TopicMatches(pattern, topic) <==> Matches(pattern, topic)
  {
    TopicMatchesIs(pattern, topic);
    ConcreteLevels(topic);
  }

  /** Every topic the filter can match is matched by the pattern. */
  ghost predicate Covers(pattern: string, filter: string) {
    forall t: string :: Concrete(t) && Matches(filter, t) ==> Matches(pattern, t)
  }

  /** Covering is sound for every pattern and every filter, well formed or not. */
  lemma CoveringSound(pattern: string, filter: string)
    requires TopicMatches(pattern, filter)
    ensures Covers(pattern, filter)
  {
    TopicMatchesIs(pattern, filter);
    forall t: string | Concrete(t) && Matches(filter, t) ensures Matches(pattern, t) {
      var p, f, s := Levels(pattern), Levels(filter), Levels(t);
      assert HashAt(p) <= HashAt(f);
      forall i | 0 <= i < HashAt(p) ensures LevelMatches(p[i], s[i]) {
        assert LevelMatches(f[i], s[i]);
      }
      FirstLevelPrefix(t, '$');
      FirstLevelPrefix(filter, '$');
      assert HashAt(f) > 0 ==> LevelMatches(f[0], s[0]);
    }
  }

  /** A level no pattern level can equal. */
  function FreshLevel(pp: seq<string>): (z: string)
    ensures |z| >= 1 && (forall c :: c in z ==> c == 'x')
    ensures forall i :: 0 <= i < |pp| ==> |pp[i]| < |z|
  {
    if pp == [] then "x"
    else
      var z := FreshLevel(pp[1..]);
      if |z| > |pp[0]| then z else seq(|pp[0]| + 1, i => 'x')
  }

  /** A topic the filter matches: z for each `+`, and k levels z for the `#`. */
  function Instance(f: seq<string>, z: string, k: nat): (t: seq<string>)
    ensures forall i :: 0 <= i < HashAt(f) ==> i < |t| && t[i] == (if f[i] == "+" then z else f[i])
    ensures |t| == HashAt(f) + (if HashAt(f) < |f| then k else 0)
    ensures forall i :: HashAt(f) <= i < |t| ==> t[i] == z
  {
    var h := HashAt(f);
    seq(h, i requires 0 <= i < h => if f[i] == "+" then z else f[i]) + (if h < |f| then seq(k, i => z) else [])
  }

  lemma LevelsJoinConcrete(levels: seq<string>)
    requires |levels| >= 1
    requires forall i :: 0 <= i < |levels| ==> Concrete(levels[i])
    ensures Concrete(Join(levels))
  {
  }

  /** The instance is a concrete topic, and the filter matches it. */
  lemma InstanceMatches(filter: string, z: string, k: nat) returns (t: string)
    requires WellFormed(Levels(filter)) && |z| >= 1 && (forall c :: c in z ==> c == 'x')
    requires |Instance(Levels(filter), z, k)| >= 1
    ensures Concrete(t) && Matches(filter, t) && Levels(t) == Instance(Levels(filter), z, k)
  {
    var f := Levels(filter);
    var levels := Instance(f, z, k);
    JoinOfLevels(filter);
    forall i | 0 <= i < |levels| ensures NoSlash(levels[i]) && Concrete(levels[i]) {
      if i < HashAt(f) && f[i] != "+" { assert '#' !in f[i] && '+' !in f[i]; }
    }
    LevelsOfJoin(levels);
    LevelsJoinConcrete(levels);
    t := Join(levels);
    FirstLevelPrefix(t, '$');
    if f[0] == "+" || f[0] == "#" { assert levels[0] == z && z[0] in z; }
  }

  /** The one filter the matcher refuses although it is covered: `#`, by a pattern starting "+/#". */
  predicate AllTopicsByPlusHash(pattern: string, filter: string) {
    Levels(filter) == ["#"] && |Levels(pattern)| >= 2 && Levels(pattern)[0] == "+" && Levels(pattern)[1] == "#"
  }

  /** A pattern that matches a short and a long instance of the filter meets the loop's form. */
  lemma InstancesForceForm(p: seq<string>, f: seq<string>, z: string, k: nat)
    requires |f| >= 1 && WellFormed(f) && k == (if HashAt(f) == 0 then 1 else 0)
    requires forall i :: 0 <= i < |p| ==> |p[i]| < |z|
    requires LevelsMatch(p, Instance(f, z, k)) && LevelsMatch(p, Instance(f, z, |p| + 1))
    requires !(f == ["#"] && |p| >= 2 && p[0] == "+" && p[1] == "#")
    ensures CoverForm(p, f)
  {
    var s, l, h := Instance(f, z, k), Instance(f, z, |p| + 1), HashAt(p);
    if HashAt(f) < |f| {
      assert '#' in f[HashAt(f)];
      assert h < |p| && h <= |s|;
      assert h > 0 ==> LevelMatches(p[0], s[0]);
    }
    forall i | 0 <= i < h ensures f[i] != "#" && LevelMatches(p[i], f[i]) {
      assert LevelMatches(p[i], l[i]);
    }
  }

  lemma CoveringComplete(pattern: string, filter: string)
    requires WellFormed(Levels(filter)) && Covers(pattern, filter)
    requires !AllTopicsByPlusHash(pattern, filter)
    ensures TopicMatches(pattern, filter)
  {
    var p, f := Levels(pattern), Levels(filter);
    var z, k := FreshLevel(p), if HashAt(f) == 0 then 1 else 0;
    var short := InstanceMatches(filter, z, k);
    var long := InstanceMatches(filter, z, |p| + 1);
    assert Matches(pattern, short) && Matches(pattern, long);
    InstancesForceForm(p, f, z, k);
    FirstLevelPrefix(long, '$');
    FirstLevelPrefix(filter, '$');
    TopicMatchesIs(pattern, filter);
  }

  lemma PlusHashCoversAll(pattern: string, filter: string)
    requires AllTopicsByPlusHash(pattern, filter)
    ensures Covers(pattern, filter) && !TopicMatches(pattern, filter)
  {
    assert HashAt(Levels(pattern)) == 1;
    TopicMatchesIs(pattern, filter);
  }

  /**
   Covering is exact: for a filter a client may subscribe with, the matcher accepts a
   pattern exactly when every topic of the filter is covered, save for the filter `#`
   under "+/#", which is covered and refused.
   */
  lemma CoveringExact(pattern: string, filter: string)
    requires WellFormed(Levels(filter))
    ensures TopicMatches(pattern, filter) <==> Covers(pattern, filter) && !AllTopicsByPlusHash(pattern, filter)
    ensures AllTopicsByPlusHash(pattern, filter) ==> Covers(pattern, filter)
  {
    if TopicMatches(pattern, filter) { CoveringSound(pattern, filter); }
    if AllTopicsByPlusHash(pattern, filter) { PlusHashCoversAll(pattern, filter); }
    if Covers(pattern, filter) && !AllTopicsByPlusHash(pattern, filter) { CoveringComplete(pattern, filter); }
  }
}
