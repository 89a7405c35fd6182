/**
 Which topic filters SUBSCRIBE accepts and which topics PUBLISH accepts: character tests and one
 pass over the levels, against the level-wise rules of sections 4.7 and 4.8 of MQTT 5.0.
 */
module Filters {
  import opened Topics

  /**
   strings.EqualFold of the first four bytes of s with "$SYS". Four bytes with a long s in them are
   fewer than four characters, so capitals are the only other spelling.
   */
  predicate IsSys(s: string) { |s| >= 4 && forall i :: 0 <= i < 4 ==> Lower(s[i]) == "$sys"[i] }

  /** $share/group/filter with a plain group name and a filter. */
  ghost predicate ShareOk(filter: string) {
    var l := Levels(filter);
    |l| >= 3 && l[1] != "" && Concrete(l[1]) && Join(l[2..]) != ""
  }

  /** Wildcards fill whole levels. */
  predicate Whole(level: string) { ('+' in level ==> level == "+") && ('#' in level ==> level == "#") }

  predicate AllWhole(levels: seq<string>) { forall i :: 0 <= i < |levels| ==> Whole(levels[i]) }

  /** Before the last character there is no '#' exactly when none of the levels but the last has one. */
  lemma {:induction false} HashLast(s: string)
    requires AllWhole(Levels(s))
    ensures (forall i :: 0 <= i < |s| - 1 ==> s[i] != '#') <==> (forall i :: 0 <= i < |Levels(s)| - 1 ==> '#' !in Levels(s)[i])
    decreases |s|
  {
    var k, l := FirstSlash(s), Levels(s);
    if k < |s| {
      var rest := s[k + 1..];
      assert l[1..] == Levels(rest);
      assert forall i :: 0 <= i < |l| - 1 ==> Levels(rest)[i] == l[i + 1];
      HashLast(rest);
      if forall i :: 0 <= i < |s| - 1 ==> s[i] != '#' {
        assert forall i :: 0 <= i < |rest| - 1 ==> rest[i] == s[k + 1 + i];
        assert '#' !in l[0];
        assert forall i :: 0 < i < |l| - 1 ==> l[i] == Levels(rest)[i - 1];
      }
      if forall i :: 0 <= i < |l| - 1 ==> '#' !in l[i] {
        assert '#' !in l[0];
        forall i | 0 <= i < |s| - 1 ensures s[i] != '#' {
          if i < k { assert s[i] == l[0][i]; }
          if i > k { assert s[i] == rest[i - k - 1]; }
        }
      }
    } else {
      assert Whole(l[0]) && l[0] == s;
    }
  }

  /** Index of the first c, or -1. */
  function IndexOf(s: string, c: char): (i: int)
    ensures -1 <= i < |s|
    ensures i == -1 <==> c !in s
    ensures i >= 0 ==> s[i] == c && forall j :: 0 <= j < i ==> s[j] != c
  {
    if s == "" then -1 else if s[0] == c then 0
    else
      var i := IndexOf(s[1..], c);
      assert s == [s[0]] + s[1..];
      if i == -1 then -1 else i + 1
  }

  /** The test of the first '#' and the pass over the levels make up the rule on levels. */
  lemma WellFormedIs(s: string)
    ensures WellFormed(Levels(s)) <==>
            AllWhole(Levels(s)) && !(IndexOf(s, '#') >= 0 && IndexOf(s, '#') != |s| - 1)
  {
    if AllWhole(Levels(s)) { HashLast(s); }
  }

  /** The pass over the levels. */
  method LevelsWhole(filter: string) returns (r: bool)
    ensures r <==> AllWhole(Levels(filter))
  {
    var rem := filter;
    ghost var done := 0;
    while true
      invariant done < |Levels(filter)| && Levels(rem) == Levels(filter)[done..]
      invariant AllWhole(Levels(filter)[..done])
      decreases |rem|
    {
      var slash := FirstSlash(rem);
      var level := rem[..slash];
      assert Levels(rem)[0] == level == Levels(filter)[done];
      if !Whole(level) {
        return false;
      }
      assert Levels(filter)[..done + 1] == Levels(filter)[..done] + [level];
      if slash == |rem| {
        assert Levels(filter)[..done + 1] == Levels(filter);
        return true;
      }
      assert Levels(rem)[1..] == Levels(rem[slash + 1..]);
      done, rem := done + 1, rem[slash + 1..];
    }
  }

  /** The tests of a filter with the share prefix, on the string. */
  method ShareTest(filter: string) returns (r: bool)
    ensures r <==> ShareOk(filter)
  {
    var p := FirstSlash(filter);
    if p == |filter| {
      return false;
    }
    var rest := filter[p + 1..];
    assert Levels(filter)[1..] == Levels(rest);
    var g := FirstSlash(rest);
    if g == |rest| {
      return false;
    }
    var group := rest[..g];
    assert Levels(filter)[2..] == Levels(rest)[1..] == Levels(rest[g + 1..]);
    JoinOfLevels(rest[g + 1..]);
    if group == "" || '+' in group || '#' in group {
      return false;
    }
    return |filter| > p + 1 + g + 1;
  }

  /** For every string: what a client may subscribe with, and what it may publish to. */
  method IsValidFilter(filter: string, forPublish: bool) returns (r: bool)
    ensures !forPublish ==> (r <==> filter != "" && WellFormed(Levels(filter)) && (IsShared(filter) ==> ShareOk(filter)))
    ensures forPublish ==> (r <==> Concrete(filter) && !IsSys(filter) && (IsShared(filter) ==> ShareOk(filter)))
  {
    if !forPublish && |filter| == 0 {
      return false;
    }
    if forPublish {
      if '+' in filter || '#' in filter {
        return false;
      }
      if |filter| == 0 || (filter[0] != '$' && filter[0] != '/') {
        return true;
      }
      if IsSys(filter) {
        return false;
      }
      ConcreteWhole(filter);
    }
    WellFormedIs(filter);
    var wildhash := IndexOf(filter, '#');
    if wildhash >= 0 && wildhash != |filter| - 1 {
      return false;
    }
    if IsShared(filter) {
      var ok := ShareTest(filter);
      if !ok {
        return false;
      }
    }
    r := LevelsWhole(filter);
  }

  lemma ConcreteWhole(topic: string)
    requires Concrete(topic)
    ensures AllWhole(Levels(topic))
  {
    forall i | 0 <= i < |Levels(topic)| ensures Whole(Levels(topic)[i]) {
      if '+' in Levels(topic)[i] { LevelChars(topic, i, '+'); }
      if '#' in Levels(topic)[i] { LevelChars(topic, i, '#'); }
    }
  }
}
